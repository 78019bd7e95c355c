/** Netlink attributes as bytes: a length that counts the header, a type, and a payload padded to 4. */
module Netlink {
  import opened Bytes

  const NLA_HDRLEN: nat := 4

  function Align(n: nat): (r: nat)
    ensures n <= r < n + 4 && r % 4 == 0
  {
    (n + 3) / 4 * 4
  }

  /** An attribute found in memory: its type, where its payload is, and how long it is. A number is read from where
      the payload begins, however long it is. */
  datatype Located = Located(kind: u16, data: int, len: nat)

  /** nla_ok. */
  predicate NlaOk(m: Memory, pos: int, rem: int) {
    rem >= NLA_HDRLEN && NLA_HDRLEN <= Word16(m, pos) <= rem
  }

  function Here(m: Memory, pos: int): Located
    requires Word16(m, pos) >= NLA_HDRLEN
  {
    Located(Word16(m, pos + 2), pos + NLA_HDRLEN, Word16(m, pos) - NLA_HDRLEN)
  }

  /** All the attributes an iterator visits that starts at pos with rem bytes remaining. */
  function Walk(m: Memory, pos: int, rem: int): seq<Located>
    decreases if rem < 0 then 0 else rem
  {
    if NlaOk(m, pos, rem) then
      var step := Align(Word16(m, pos));
      [Here(m, pos)] + Walk(m, pos + step, rem - step)
    else []
  }

  /** The attributes nested in one. */
  function Inside(m: Memory, a: Located): seq<Located> {
    Walk(m, a.data, a.len)
  }

  class NlIterator {
    const mem: Memory
    var pos: int
    var rem: int

    /** What is still to be visited, the current attribute first. */
    function Rest(): seq<Located>
      reads this
    {
      Walk(mem, pos, rem)
    }

    constructor (mem: Memory, attr: Located)
      ensures this.mem == mem && Rest() == Inside(mem, attr)
    {
      this.mem, this.pos, this.rem := mem, attr.data, attr.len;
    }

    method HasNext() returns (more: bool)
      ensures more <==> Rest() != []
    {
      more := rem >= NLA_HDRLEN && Word16(mem, pos) >= NLA_HDRLEN && Word16(mem, pos) <= rem;
    }

    method Next()
      requires Rest() != []
      modifies this
      ensures Rest() == old(Rest())[1..]
    {
      var step := Align(Word16(mem, pos));
      rem := rem - step;
      pos := pos + step;
    }

    method Get() returns (a: Located)
      requires Rest() != []
      ensures a == Rest()[0]
    {
      a := Here(mem, pos);
    }
  }

  // ---------------------------------------------------------------- encoding

  /** An attribute to be written: with given bytes, with a number, or with attributes nested in it. */
  datatype Attr = Raw(kind: u16, bytes: seq<byte>) | Word(kind: u16, w: u32) | Nest(kind: u16, inner: seq<Attr>)

  function Zeros(n: nat): (s: seq<byte>)
    ensures |s| == n
  {
    if n == 0 then [] else [0] + Zeros(n - 1)
  }

  function Header(len: nat, kind: u16): (s: seq<byte>)
    ensures |s| == NLA_HDRLEN
  {
    U16(len % 0x1_0000) + U16(kind)
  }

  function Payload(a: Attr): seq<byte>
    decreases a, 0
  {
    match a
    case Raw(_, bytes) => bytes
    case Word(_, w) => U32(w)
    case Nest(_, inner) => EncodeAll(inner)
  }

  function Encode(a: Attr): (s: seq<byte>)
    ensures |s| == NLA_HDRLEN + Align(|Payload(a)|)
    decreases a, 1
  {
    var p := Payload(a);
    Header(NLA_HDRLEN + |p|, a.kind) + p + Zeros(Align(|p|) - |p|)
  }

  function EncodeAll(s: seq<Attr>): seq<byte>
    decreases s, 0
  {
    if s == [] then [] else Encode(s[0]) + EncodeAll(s[1..])
  }

  lemma {:induction false} EncodeAllAppend(s: seq<Attr>, t: seq<Attr>)
    ensures EncodeAll(s + t) == EncodeAll(s) + EncodeAll(t)
  {
    if s == [] {
      assert s + t == t && EncodeAll(s) + EncodeAll(t) == EncodeAll(t);
    } else {
      assert (s + t)[0] == s[0] && (s + t)[1..] == s[1..] + t;
      EncodeAllAppend(s[1..], t);
      assert Encode(s[0]) + (EncodeAll(s[1..]) + EncodeAll(t)) == Encode(s[0]) + EncodeAll(s[1..]) + EncodeAll(t);
    }
  }

  lemma EncodeOne(a: Attr)
    ensures EncodeAll([a]) == Encode(a)
  {
    assert EncodeAll([]) == [];
  }

  /** The length field can hold the length. */
  predicate Fits(a: Attr) {
    NLA_HDRLEN + |Payload(a)| < 0x1_0000
  }

  predicate AllFit(s: seq<Attr>) {
    forall i :: 0 <= i < |s| ==> Fits(s[i])
  }

  predicate Shown(m: Memory, l: Located, a: Attr) {
    l.kind == a.kind && l.len == |Payload(a)| && Holds(m, l.data, Payload(a))
  }

  predicate AllShown(m: Memory, w: seq<Located>, s: seq<Attr>) {
    |w| == |s| && forall i :: 0 <= i < |s| ==> Shown(m, w[i], s[i])
  }

  lemma HeaderHere(m: Memory, pos: int, a: Attr)
    requires Holds(m, pos, Encode(a)) && Fits(a)
    ensures Word16(m, pos) == NLA_HDRLEN + |Payload(a)|
    ensures Shown(m, Here(m, pos), a)
  {
    var p := Payload(a);
    var len := NLA_HDRLEN + |p|;
    HoldsSplit(m, pos, Header(len, a.kind) + p, Zeros(Align(|p|) - |p|));
    HoldsSplit(m, pos, Header(len, a.kind), p);
    HoldsSplit(m, pos, U16(len), U16(a.kind));
    HoldsWord16(m, pos, len);
    HoldsWord16(m, pos + 2, a.kind);
  }

  lemma ShownFirst(m: Memory, l: Located, w: seq<Located>, s: seq<Attr>)
    requires s != [] && Shown(m, l, s[0]) && AllShown(m, w, s[1..])
    ensures AllShown(m, [l] + w, s)
  {
    forall i | 0 <= i < |s| ensures Shown(m, ([l] + w)[i], s[i]) {
      if i > 0 {
        assert Shown(m, w[i - 1], s[1..][i - 1]);
      }
    }
  }

  /** A walk visits the attribute at pos and then goes on behind it and its padding. */
  lemma WalkUnfolds(m: Memory, pos: int, a: Attr, rem: nat)
    requires Holds(m, pos, Encode(a)) && Fits(a)
    ensures Word16(m, pos) >= NLA_HDRLEN
    ensures Walk(m, pos, |Encode(a)| + rem) == [Here(m, pos)] + Walk(m, pos + |Encode(a)|, rem)
    ensures Shown(m, Here(m, pos), a)
  {
    HeaderHere(m, pos, a);
    assert Align(NLA_HDRLEN + |Payload(a)|) == |Encode(a)|;
  }

  /** Walking over encoded attributes finds each of them, in order, and nothing else. */
  lemma {:induction false} WalkFindsEncoded(m: Memory, pos: int, s: seq<Attr>)
    requires Holds(m, pos, EncodeAll(s)) && AllFit(s)
    ensures AllShown(m, Walk(m, pos, |EncodeAll(s)|), s)
    decreases |s|
  {
    if s == [] {
    } else {
      var first, rest := Encode(s[0]), EncodeAll(s[1..]);
      HoldsSplit(m, pos, first, rest);
      WalkUnfolds(m, pos, s[0], |rest|);
      WalkFindsEncoded(m, pos + |first|, s[1..]);
      ShownFirst(m, Here(m, pos), Walk(m, pos + |first|, |rest|), s);
    }
  }
}
