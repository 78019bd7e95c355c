/** Replies with cached scans, as a driver writes them, and that the client gets the scans they were written from. */
module CachedReply {
  import opened Bytes
  import opened CachedScans
  import opened Netlink
  import opened Sequences

  // ---------------------------------------------------------------- records

  const U64_LIMIT: nat := 0x1_0000_0000_0000_0000

  function U64(n: nat): (s: seq<byte>)
    requires n < U64_LIMIT
    ensures |s| == 8
  {
    U32(n % 0x1_0000_0000) + U32(n / 0x1_0000_0000)
  }

  /** The fields fit those of a wifi_gscan_result, and there are no information elements. */
  predicate Fitting(a: Ap) {
    && |a.ssid| == SSID_SIZE && |a.bssid| == MAC_SIZE && -0x8000_0000 <= a.rssi < 0x8000_0000 && a.ieLength == 0
    && a.ts < U64_LIMIT && a.rtt < U64_LIMIT && a.rttSd < U64_LIMIT
  }

  /** A record: the time, the name, the address and a byte to align them, then the numbers, padded to 80. */
  function EncodeAp(a: Ap): (s: seq<byte>)
    requires Fitting(a)
    ensures |s| == RECORD
  {
    EncodeNames(a) + EncodeNumbers(a)
  }

  function EncodeNames(a: Ap): (s: seq<byte>)
    requires Fitting(a)
    ensures |s| == 48
  {
    U64(a.ts) + (a.ssid + (a.bssid + [0]))
  }

  function EncodeNumbers(a: Ap): (s: seq<byte>)
    requires Fitting(a)
    ensures |s| == 32
  {
    U32(a.channel) + (U32(Unsigned(a.rssi)) + (U64(a.rtt) + (U64(a.rttSd)
    + (U16(a.beaconPeriod) + (U16(a.capability) + Zeros(4))))))
  }

  lemma HoldsWord64(m: Memory, p: int, n: nat)
    requires n < U64_LIMIT && Holds(m, p, U64(n))
    ensures Word64(m, p) == n
  {
    HoldsSplit(m, p, U32(n % 0x1_0000_0000), U32(n / 0x1_0000_0000));
    HoldsWord32(m, p, n % 0x1_0000_0000);
    HoldsWord32(m, p + 4, n / 0x1_0000_0000);
  }

  lemma NamesReadBack(m: Memory, p: int, a: Ap)
    requires Fitting(a) && Holds(m, p, EncodeNames(a))
    ensures Word64(m, p) == a.ts && Read(m, p + 8, SSID_SIZE) == a.ssid && Read(m, p + 41, MAC_SIZE) == a.bssid
  {
    HoldsSplit(m, p, U64(a.ts), a.ssid + (a.bssid + [0]));
    HoldsWord64(m, p, a.ts);
    HoldsSplit(m, p + 8, a.ssid, a.bssid + [0]);
    HoldsSplit(m, p + 41, a.bssid, [0]);
    HoldsRead(m, p + 8, a.ssid, 0, SSID_SIZE);
    HoldsRead(m, p + 41, a.bssid, 0, MAC_SIZE);
    assert a.ssid[0..0 + SSID_SIZE] == a.ssid && a.bssid[0..0 + MAC_SIZE] == a.bssid;
  }

  lemma NumbersReadBack(m: Memory, p: int, a: Ap)
    requires Fitting(a) && Holds(m, p, EncodeNumbers(a))
    ensures Word32(m, p) == a.channel && Signed(Word32(m, p + 4)) == a.rssi
    ensures Word64(m, p + 8) == a.rtt && Word64(m, p + 16) == a.rttSd
    ensures Word16(m, p + 24) == a.beaconPeriod && Word16(m, p + 26) == a.capability
  {
    var last := U16(a.beaconPeriod) + (U16(a.capability) + Zeros(4));
    HoldsSplit(m, p, U32(a.channel), U32(Unsigned(a.rssi)) + (U64(a.rtt) + (U64(a.rttSd) + last)));
    HoldsSplit(m, p + 4, U32(Unsigned(a.rssi)), U64(a.rtt) + (U64(a.rttSd) + last));
    HoldsSplit(m, p + 8, U64(a.rtt), U64(a.rttSd) + last);
    HoldsSplit(m, p + 16, U64(a.rttSd), last);
    HoldsSplit(m, p + 24, U16(a.beaconPeriod), U16(a.capability) + Zeros(4));
    HoldsSplit(m, p + 26, U16(a.capability), Zeros(4));
    HoldsWord32(m, p, a.channel);
    HoldsWord32(m, p + 4, Unsigned(a.rssi));
    HoldsWord64(m, p + 8, a.rtt);
    HoldsWord64(m, p + 16, a.rttSd);
    HoldsWord16(m, p + 24, a.beaconPeriod);
    HoldsWord16(m, p + 26, a.capability);
  }

  /** A record is read back field by field. */
  lemma RecordReadsBack(m: Memory, p: int, a: Ap)
    requires Fitting(a) && Holds(m, p, EncodeAp(a))
    ensures Convert(m, p) == a
  {
    HoldsSplit(m, p, EncodeNames(a), EncodeNumbers(a));
    NamesReadBack(m, p, a);
    NumbersReadBack(m, p + 48, a);
  }

  predicate AllFitting(aps: seq<Ap>) { forall a :: a in aps ==> Fitting(a) }

  function EncodeAps(aps: seq<Ap>): (s: seq<byte>)
    requires AllFitting(aps)
    ensures |s| == RECORD * |aps|
  {
    if aps == [] then [] else EncodeAps(aps[..|aps| - 1]) + EncodeAp(aps[|aps| - 1])
  }

  lemma {:induction false} EncodesPrefix(m: Memory, p: int, aps: seq<Ap>, n: nat)
    requires AllFitting(aps) && n <= |aps| && Holds(m, p, EncodeAps(aps))
    ensures Holds(m, p, EncodeAps(aps[..n]))
    decreases |aps|
  {
    if n == |aps| {
      assert aps[..n] == aps;
    } else {
      var most := aps[..|aps| - 1];
      HoldsSplit(m, p, EncodeAps(most), EncodeAp(aps[|aps| - 1]));
      EncodesPrefix(m, p, most, n);
      assert most[..n] == aps[..n];
    }
  }

  lemma RecordsLast(m: Memory, p: int, most: seq<Ap>, last: Ap)
    requires Records(m, p, |most|) == most && Convert(m, p + RECORD * |most|) == last
    ensures Records(m, p, |most| + 1) == most + [last]
  {
    assert Record(m, p)(|most|) == Convert(m, p + RECORD * |most|);
  }

  lemma SplitAt(m: Memory, p: int, a: seq<byte>, b: seq<byte>, q: int)
    requires Holds(m, p, a + b) && q == p + |a|
    ensures Holds(m, p, a) && Holds(m, q, b)
  {
    HoldsSplit(m, p, a, b);
  }

  /** The last record, at q, and the bytes of the others before it. */
  lemma EncodedLast(m: Memory, p: int, aps: seq<Ap>, last: Ap, q: int)
    requires AllFitting(aps) && aps != [] && Holds(m, p, EncodeAps(aps))
    requires last == aps[|aps| - 1] && q == p + RECORD * (|aps| - 1)
    ensures Fitting(last) && Holds(m, p, EncodeAps(aps[..|aps| - 1])) && Holds(m, q, EncodeAp(last))
  {
    assert last in aps;
    SplitAt(m, p, EncodeAps(aps[..|aps| - 1]), EncodeAp(last), q);
  }

  lemma {:induction false} RecordsReadBack(m: Memory, p: int, aps: seq<Ap>)
    requires AllFitting(aps) && Holds(m, p, EncodeAps(aps))
    ensures Records(m, p, |aps|) == aps
  {
    if aps == [] {
    } else {
      var n := |aps| - 1;
      var q := p + RECORD * n;
      EncodedLast(m, p, aps, aps[n], q);
      RecordsReadBack(m, p, aps[..n]);
      RecordReadsBack(m, q, aps[n]);
      RecordsLast(m, p, aps[..n], aps[n]);
      LastAgain(aps);
    }
  }

  lemma LastAgain<T>(s: seq<T>)
    requires s != []
    ensures s[..|s| - 1] + [s[|s| - 1]] == s
  {}

  // ---------------------------------------------------------------- scans

  /** An attribute in front of the results of a scan: a number where one is expected, and anything else but results. */
  predicate Head(a: Attr) {
    && Fits(a) && a.kind != GSCAN_ATTRIBUTE_SCAN_RESULTS
    && (a.kind in {GSCAN_ATTRIBUTE_SCAN_ID, GSCAN_ATTRIBUTE_CH_BUCKET_BITMASK, GSCAN_ATTRIBUTE_NUM_OF_RESULTS} ==>
          a.Word?)
    && (a.kind == GSCAN_ATTRIBUTE_SCAN_FLAGS ==> a.Raw? && a.bytes != [])
  }

  /** The number an attribute was written with. */
  function Number(a: Attr): u32 {
    match a
    case Word(_, w) => w
    case Raw(_, bytes) => if bytes == [] then 0 else bytes[0]
    case Nest(_, _) => 0
  }

  /** The number of the last attribute of the kind, or what it was before. */
  function Told(heads: seq<Attr>, kind: u16, before: u32): u32
    decreases |heads|
  {
    if heads == [] then before
    else Told(heads[1..], kind, if heads[0].kind == kind then Number(heads[0]) else before)
  }

  /** A scan as the driver writes it: whatever it says about it, in any order, and then the records. */
  datatype Given = Given(heads: seq<Attr>, aps: seq<Ap>) {
    predicate Good() {
      (forall a :: a in heads ==> Head(a)) && AllFitting(aps) && Fits(Raw(0, EncodeAps(aps)))
    }

    function Attrs(): seq<Attr>
      requires Good()
    {
      heads + [Raw(GSCAN_ATTRIBUTE_SCAN_RESULTS, EncodeAps(aps))]
    }

    function Says(kind: u16): u32 { Told(heads, kind, 0) }

    /** How many records the client takes. */
    function Taken(limit: nat): int {
      Min(Min(Signed(Says(GSCAN_ATTRIBUTE_NUM_OF_RESULTS)), |aps|), limit)
    }

    /** The scan the client gets: what was said last of each kind, and the first of the records. */
    function Got(limit: nat): Scan {
      Scan(Signed(Says(GSCAN_ATTRIBUTE_SCAN_ID)), Says(GSCAN_ATTRIBUTE_SCAN_FLAGS),
           Signed(Says(GSCAN_ATTRIBUTE_CH_BUCKET_BITMASK)), Taken(limit),
           if Taken(limit) < 0 then [] else aps[..Taken(limit)])
    }
  }

  /** What has been said when these are the last numbers of each kind. */
  function SaidBy(id: u32, flags: u32, num: u32, mask: u32): Said {
    Said(Signed(id), flags, Signed(num), Signed(mask))
  }

  lemma HeadIsHeard(m: Memory, l: Located, a: Attr, id: u32, flags: u32, num: u32, mask: u32)
    requires Head(a) && Shown(m, l, a)
    ensures Hear(m, l, SaidBy(id, flags, num, mask))
         == SaidBy(Told([a], GSCAN_ATTRIBUTE_SCAN_ID, id), Told([a], GSCAN_ATTRIBUTE_SCAN_FLAGS, flags),
                   Told([a], GSCAN_ATTRIBUTE_NUM_OF_RESULTS, num), Told([a], GSCAN_ATTRIBUTE_CH_BUCKET_BITMASK, mask))
  {
    assert forall kind, before :: Told([a][1..], kind, before) == before;
    if a.Word? {
      HoldsWord32(m, l.data, a.w);
    } else if a.kind == GSCAN_ATTRIBUTE_SCAN_FLAGS {
      assert At(m, l.data + 0) == a.bytes[0];
    }
  }

  lemma ResultsAreGot(m: Memory, l: Located, aps: seq<Ap>, said: Said, limit: nat)
    requires AllFitting(aps) && Shown(m, l, Raw(GSCAN_ATTRIBUTE_SCAN_RESULTS, EncodeAps(aps)))
    ensures var n := Min(Min(said.num, |aps|), limit);
            DecodeScan(m, [l], said, limit)
            == if said.num == 0 then []
               else [Scan(said.scanId, said.flags, said.mask, n, if n < 0 then [] else aps[..n])]
  {
    var n := Min(Min(said.num, |aps|), limit);
    assert l.len / RECORD == |aps|;
    assert [l][1..] == [];
    if n >= 0 {
      EncodesPrefix(m, l.data, aps, n);
      RecordsReadBack(m, l.data, aps[..n]);
    }
  }

  lemma {:induction false} ScanIsGot(
      m: Memory, w: seq<Located>, heads: seq<Attr>, aps: seq<Ap>, id: u32, flags: u32, num: u32, mask: u32, limit: nat)
    requires AllFitting(aps) && forall a :: a in heads ==> Head(a)
    requires AllShown(m, w, heads + [Raw(GSCAN_ATTRIBUTE_SCAN_RESULTS, EncodeAps(aps))])
    ensures var said := SaidBy(Told(heads, GSCAN_ATTRIBUTE_SCAN_ID, id), Told(heads, GSCAN_ATTRIBUTE_SCAN_FLAGS, flags),
                               Told(heads, GSCAN_ATTRIBUTE_NUM_OF_RESULTS, num),
                               Told(heads, GSCAN_ATTRIBUTE_CH_BUCKET_BITMASK, mask));
            var n := Min(Min(said.num, |aps|), limit);
            DecodeScan(m, w, SaidBy(id, flags, num, mask), limit)
            == if said.num == 0 then []
               else [Scan(said.scanId, said.flags, said.mask, n, if n < 0 then [] else aps[..n])]
    decreases |heads|
  {
    var result := Raw(GSCAN_ATTRIBUTE_SCAN_RESULTS, EncodeAps(aps));
    var s := heads + [result];
    if heads == [] {
      assert s[0] == result && Shown(m, w[0], s[0]);
      assert w == [w[0]];
      ResultsAreGot(m, w[0], aps, SaidBy(id, flags, num, mask), limit);
    } else {
      var a := heads[0];
      assert s[0] == a && Shown(m, w[0], s[0]) && a in heads;
      assert s[1..] == heads[1..] + [result];
      HeadIsHeard(m, w[0], a, id, flags, num, mask);
      assert [a][1..] == [];
      RestIsShown(m, w, s);
      ScanIsGot(m, w[1..], heads[1..], aps,
        Told([a], GSCAN_ATTRIBUTE_SCAN_ID, id), Told([a], GSCAN_ATTRIBUTE_SCAN_FLAGS, flags),
        Told([a], GSCAN_ATTRIBUTE_NUM_OF_RESULTS, num), Told([a], GSCAN_ATTRIBUTE_CH_BUCKET_BITMASK, mask), limit);
    }
  }

  lemma RestIsShown(m: Memory, w: seq<Located>, s: seq<Attr>)
    requires AllShown(m, w, s) && s != []
    ensures AllShown(m, w[1..], s[1..])
  {
    forall i | 0 <= i < |s[1..]| ensures Shown(m, w[1..][i], s[1..][i]) {
      assert Shown(m, w[i + 1], s[i + 1]);
    }
  }

  /** A scan written into a nest is got from it. */
  lemma GivenIsGot(m: Memory, l: Located, g: Given, limit: nat)
    requires g.Good() && Shown(m, l, Nest(GSCAN_ATTRIBUTE_SCAN_RESULTS, g.Attrs()))
    ensures DecodeScan(m, Inside(m, l), NOTHING_SAID, limit)
         == if g.Says(GSCAN_ATTRIBUTE_NUM_OF_RESULTS) == 0 then [] else [g.Got(limit)]
  {
    var nest := Nest(GSCAN_ATTRIBUTE_SCAN_RESULTS, g.Attrs());
    assert Payload(nest) == EncodeAll(g.Attrs());
    forall i | 0 <= i < |g.Attrs()| ensures Fits(g.Attrs()[i]) {
      assert i < |g.heads| ==> g.Attrs()[i] in g.heads;
      FitsWhateverKind(EncodeAps(g.aps));
    }
    WalkFindsEncoded(m, l.data, g.Attrs());
    ScanIsGot(m, Inside(m, l), g.heads, g.aps, 0, 0, 0, 0, limit);
    assert SaidBy(0, 0, 0, 0) == NOTHING_SAID;
  }

  lemma FitsWhateverKind(bytes: seq<byte>)
    ensures Fits(Raw(GSCAN_ATTRIBUTE_SCAN_RESULTS, bytes)) <==> Fits(Raw(0, bytes))
  {
    assert Payload(Raw(GSCAN_ATTRIBUTE_SCAN_RESULTS, bytes)) == bytes == Payload(Raw(0, bytes));
  }

  // ---------------------------------------------------------------- replies

  /** What a reply is made of: scans, and the completion flag. */
  datatype Item = OneScan(g: Given) | Complete(flag: byte) {
    predicate Good() { OneScan? ==> g.Good() && Fits(Nest(GSCAN_ATTRIBUTE_SCAN_RESULTS, g.Attrs())) }

    function Attribute(): Attr
      requires Good()
    {
      match this
      case OneScan(g) => Nest(GSCAN_ATTRIBUTE_SCAN_RESULTS, g.Attrs())
      case Complete(flag) => Raw(GSCAN_ATTRIBUTE_SCAN_RESULTS_COMPLETE, [flag])
    }
  }

  predicate AllGood(items: seq<Item>) { forall i :: i in items ==> i.Good() }

  function Attributes(items: seq<Item>): (s: seq<Attr>)
    requires AllGood(items)
    ensures |s| == |items| && AllFit(s)
  {
    if items == [] then [] else [items[0].Attribute()] + Attributes(items[1..])
  }

  /** The scans the client gets from them, in order; one that announces no results is left out. */
  function AllGot(items: seq<Item>, limit: nat): seq<Scan> {
    if items == [] then []
    else
      (if items[0].Complete? || items[0].g.Says(GSCAN_ATTRIBUTE_NUM_OF_RESULTS) == 0 then []
       else [items[0].g.Got(limit)])
      + AllGot(items[1..], limit)
  }

  function LastFlag(items: seq<Item>, before: byte): byte {
    if items == [] then before else LastFlag(items[1..], if items[0].Complete? then items[0].flag else before)
  }

  lemma {:induction false} ItemsAreGot(m: Memory, w: seq<Located>, items: seq<Item>, limit: nat, before: byte)
    requires AllGood(items) && AllShown(m, w, Attributes(items))
    ensures Decode(m, w, limit) == AllGot(items, limit) && Flag(m, w, before) == LastFlag(items, before)
    decreases |items|
  {
    if items == [] {
    } else {
      var s := Attributes(items);
      var first := items[0];
      assert Shown(m, w[0], s[0]) && first in items;
      assert s[1..] == Attributes(items[1..]);
      RestIsShown(m, w, s);
      match first
      case OneScan(g) =>
        GivenIsGot(m, w[0], g, limit);
        ItemsAreGot(m, w[1..], items[1..], limit, before);
      case Complete(flag) =>
        assert At(m, w[0].data + 0) == [flag][0];
        ItemsAreGot(m, w[1..], items[1..], limit, flag);
    }
  }

  /** A reply that a driver has written from scans and completion flags gives back those scans, each with what was said
      of it and with its records, and the last of the flags. */
  lemma ReplyRoundTrip(r: Reply, items: seq<Item>, limit: nat, before: byte)
    requires AllGood(items) && r.vendorCommand && r.data.Some?
    requires r.data.value.len == |EncodeAll(Attributes(items))|
    requires Holds(r.m, r.data.value.data, EncodeAll(Attributes(items)))
    ensures r.Scans(limit) == AllGot(items, limit)
    ensures Flag(r.m, r.Attributes(), before) == LastFlag(items, before)
  {
    WalkFindsEncoded(r.m, r.data.value.data, Attributes(items));
    ItemsAreGot(r.m, Inside(r.m, r.data.value), items, limit, before);
    if r.data.value.len == 0 {
      assert Inside(r.m, r.data.value) == [];
    }
  }

  /** Nothing is taken from a reply to anything but a vendor command, or without vendor data. */
  lemma OnlyVendorDataIsHeard(r: Reply, limit: nat, before: byte)
    requires !r.vendorCommand || r.data.None? || r.data.value.len == 0
    ensures r.Scans(limit) == [] && Flag(r.m, r.Attributes(), before) == before
  {
    assert r.Attributes() == [];
  }
}
