/** A request under construction: attributes appended to a message of fixed size, and nests closed by writing their
    length back. */
module WifiRequests {
  import opened Bytes
  import opened Netlink
  import opened Sequences

  class WifiRequest {
    /** The part of the message after its headers, and how much of it is used. */
    const buf: array<byte>
    var len: nat

    predicate Valid()
      reads this
    {
      len <= buf.Length < 0x1_0000
    }

    function Contents(): seq<byte>
      requires Valid()
      reads this, buf
    {
      buf[..len]
    }

    constructor (size: nat)
      requires size < 0x1_0000
      ensures Valid() && fresh(buf) && buf.Length == size && Contents() == []
    {
      buf := new byte[size];
      len := 0;
    }

    /** nla_put: room for the header, the payload and its padding, or nothing at all. */
    method Put(kind: u16, payload: seq<byte>) returns (ok: bool)
      requires Valid()
      modifies this`len, buf
      ensures Valid()
      ensures ok <==> |old(Contents())| + |Encode(Raw(kind, payload))| <= buf.Length
      ensures Contents() == if ok then old(Contents()) + Encode(Raw(kind, payload)) else old(Contents())
    {
      ghost var before := Contents();
      var size := NLA_HDRLEN + Align(|payload|);
      ok := len + size <= buf.Length;
      if ok {
        var bytes := Encode(Raw(kind, payload));
        forall i | 0 <= i < size {
          buf[len + i] := bytes[i];
        }
        len := len + size;
        assert buf[..len] == before + bytes;
      }
    }

    method PutU32(kind: u16, v: u32) returns (ok: bool)
      requires Valid()
      modifies this`len, buf
      ensures Valid()
      ensures ok <==> |old(Contents())| + 8 <= buf.Length
      ensures Contents() == if ok then old(Contents()) + Encode(Word(kind, v)) else old(Contents())
    {
      assert Encode(Word(kind, v)) == Encode(Raw(kind, U32(v)));
      ok := Put(kind, U32(v));
    }

    /** nla_nest_start: the place of an empty attribute, or none. */
    method AttrStart(kind: u16) returns (start: Option<nat>)
      requires Valid()
      modifies this`len, buf
      ensures Valid()
      ensures start == if |old(Contents())| + NLA_HDRLEN <= buf.Length then Some(|old(Contents())|) else None
      ensures Contents() == if start.Some? then old(Contents()) + Header(NLA_HDRLEN, kind) else old(Contents())
    {
      var at := len;
      assert Encode(Raw(kind, [])) == Header(NLA_HDRLEN, kind);
      var ok := Put(kind, []);
      start := if ok then Some(at) else None;
    }

    /** nla_nest_end: the length of everything since the start goes into its header. */
    method AttrEnd(start: nat, ghost base: seq<byte>, ghost kind: u16, ghost inner: seq<Attr>)
      requires Valid() && |base| == start
      requires Contents() == base + Header(NLA_HDRLEN, kind) + EncodeAll(inner)
      modifies buf
      ensures Valid()
      ensures Contents() == base + Encode(Nest(kind, inner))
    {
      ghost var before := Contents();
      var size := U16(len - start);
      buf[start] := size[0];
      buf[start + 1] := size[1];
      assert Contents() == before[start := size[0]][start + 1 := size[1]];
      Closing(base, kind, EncodeAll(inner), before);
      NestEncoded(kind, inner);
      Assoc(base, Header(NLA_HDRLEN + |EncodeAll(inner)|, kind), EncodeAll(inner));
    }
  }

  lemma Closing(base: seq<byte>, kind: u16, body: seq<byte>, before: seq<byte>)
    requires before == base + Header(NLA_HDRLEN, kind) + body && NLA_HDRLEN + |body| < 0x1_0000
    ensures var size := U16(NLA_HDRLEN + |body|);
            before[|base| := size[0]][|base| + 1 := size[1]] == base + Header(NLA_HDRLEN + |body|, kind) + body
  {
    var size := U16(NLA_HDRLEN + |body|);
    var after := before[|base| := size[0]][|base| + 1 := size[1]];
    var n := |base|;
    assert before[n + 2] == U16(kind)[0] && before[n + 3] == U16(kind)[1];
    assert Header(NLA_HDRLEN + |body|, kind) == [size[0], size[1], U16(kind)[0], U16(kind)[1]];
  }

  lemma NestEncoded(kind: u16, inner: seq<Attr>)
    ensures Encode(Nest(kind, inner)) == Header(NLA_HDRLEN + |EncodeAll(inner)|, kind) + EncodeAll(inner)
  {
    EncodedAreAligned(inner);
    AlignedIsAligned(|EncodeAll(inner)|);
    assert Payload(Nest(kind, inner)) == EncodeAll(inner);
  }

  lemma AlignedIsAligned(n: nat)
    requires n % 4 == 0
    ensures Align(n) == n
  {}

  lemma AlignedSum(a: nat, b: nat)
    requires a % 4 == 0 && b % 4 == 0
    ensures (a + b) % 4 == 0
  {}

  lemma {:induction false} EncodedAreAligned(s: seq<Attr>)
    ensures |EncodeAll(s)| % 4 == 0
  {
    if s == [] {
    } else {
      EncodedAreAligned(s[1..]);
      AlignedSum(NLA_HDRLEN, Align(|Payload(s[0])|));
      AlignedSum(|Encode(s[0])|, |EncodeAll(s[1..])|);
    }
  }
}
