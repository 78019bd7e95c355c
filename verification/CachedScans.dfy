/** Scan results the driver has cached, fetched in several rounds into an array of the caller. */
module CachedScans {
  import opened Bytes
  import opened Netlink
  import opened Sequences

  const GSCAN_ATTRIBUTE_SCAN_RESULTS_COMPLETE: u16 := 21
  const GSCAN_ATTRIBUTE_NUM_OF_RESULTS: u16 := 30
  const GSCAN_ATTRIBUTE_SCAN_RESULTS: u16 := 32
  const GSCAN_ATTRIBUTE_SCAN_ID: u16 := 33
  const GSCAN_ATTRIBUTE_SCAN_FLAGS: u16 := 34
  const GSCAN_ATTRIBUTE_CH_BUCKET_BITMASK: u16 := 38

  /** sizeof(wifi_gscan_result). */
  const RECORD: nat := 80
  const SSID_SIZE: nat := 33
  const MAC_SIZE: nat := 6

  datatype Ap = Ap(
    ts: nat, ssid: seq<byte>, bssid: seq<byte>, channel: u32, rssi: int, rtt: nat, rttSd: nat,
    beaconPeriod: u16, capability: u16, ieLength: nat)

  function Word64(m: Memory, p: int): nat {
    Word32(m, p) + 0x1_0000_0000 * Word32(m, p + 4)
  }

  /** convert_to_hal_result, on a record of the driver's layout; there are no information elements. */
  function Convert(m: Memory, p: int): Ap {
    Ap(Word64(m, p), Read(m, p + 8, SSID_SIZE), Read(m, p + 41, MAC_SIZE), Word32(m, p + 48),
       Signed(Word32(m, p + 52)), Word64(m, p + 56), Word64(m, p + 64), Word16(m, p + 72), Word16(m, p + 74), 0)
  }

  /** The records of an array of the driver's. */
  function Record(m: Memory, p: int): int -> Ap {
    (i: int) => Convert(m, p + RECORD * i)
  }

  /** The first n elements of what f counts off. */
  function Counted<T>(f: int -> T, n: int): (s: seq<T>)
    ensures |s| == if n < 0 then 0 else n
    decreases if n < 0 then 0 else n
  {
    if n <= 0 then [] else Counted(f, n - 1) + [f(n - 1)]
  }

  function Records(m: Memory, p: int, n: int): seq<Ap> {
    Counted(Record(m, p), n)
  }

  /** A scan as the caller gets it. */
  datatype Scan = Scan(scanId: int, flags: int, bucketsScanned: int, numResults: int, results: seq<Ap>)

  // ---------------------------------------------------------------- what the replies say, without any maximum

  /** What the attributes of one scan have said so far. */
  datatype Said = Said(scanId: int, flags: int, num: int, mask: int)

  /** How many records are taken: what was announced, what is there, and what a scan can cache, whichever is least. */
  function Taken(num: int, a: Located, limit: nat): int {
    Min(Min(num, a.len / RECORD), limit)
  }

  function Hear(m: Memory, a: Located, said: Said): Said {
    if a.kind == GSCAN_ATTRIBUTE_SCAN_ID then said.(scanId := Signed(Word32(m, a.data)))
    else if a.kind == GSCAN_ATTRIBUTE_SCAN_FLAGS then said.(flags := At(m, a.data))
    else if a.kind == GSCAN_ATTRIBUTE_NUM_OF_RESULTS then said.(num := Signed(Word32(m, a.data)))
    else if a.kind == GSCAN_ATTRIBUTE_CH_BUCKET_BITMASK then said.(mask := Signed(Word32(m, a.data)))
    else said
  }

  /** The attribute holds the results of a scan, and they count. */
  predicate Results(a: Located, said: Said) {
    a.kind == GSCAN_ATTRIBUTE_SCAN_RESULTS && said.num != 0
  }

  function ScanOf(m: Memory, a: Located, said: Said, limit: nat): Scan {
    var n := Taken(said.num, a, limit);
    Scan(said.scanId, said.flags, said.mask, n, Records(m, a.data, n))
  }

  /** What has been said is still so for the next results, but for the number: that stays at what was taken. */
  function DecodeScan(m: Memory, w: seq<Located>, said: Said, limit: nat): seq<Scan> {
    if w == [] then []
    else if Results(w[0], said) then
      [ScanOf(m, w[0], said, limit)] + DecodeScan(m, w[1..], said.(num := Taken(said.num, w[0], limit)), limit)
    else DecodeScan(m, w[1..], Hear(m, w[0], said), limit)
  }

  const NOTHING_SAID := Said(0, 0, 0, 0)

  predicate HoldsScans(a: Located) {
    a.kind == GSCAN_ATTRIBUTE_SCAN_RESULTS || a.kind == 0
  }

  function Decode(m: Memory, w: seq<Located>, limit: nat): seq<Scan> {
    if w == [] then []
    else (if HoldsScans(w[0]) then DecodeScan(m, Inside(m, w[0]), NOTHING_SAID, limit) else [])
         + Decode(m, w[1..], limit)
  }

  /** The completion flag after the attributes. */
  function Flag(m: Memory, w: seq<Located>, before: byte): byte {
    if w == [] then before
    else Flag(m, w[1..], if w[0].kind == GSCAN_ATTRIBUTE_SCAN_RESULTS_COMPLETE then At(m, w[0].data) else before)
  }

  /** A reply, and where its vendor data is. */
  datatype Reply = Reply(vendorCommand: bool, m: Memory, data: Option<Located>)
  {
    predicate Heard() {
      vendorCommand && data.Some? && data.value.len != 0
    }

    function Attributes(): seq<Located> {
      if Heard() then Inside(m, data.value) else []
    }

    function Scans(limit: nat): seq<Scan> { Decode(m, Attributes(), limit) }
  }

  function AllScans(replies: seq<Reply>, limit: nat): seq<Scan> {
    if replies == [] then [] else replies[0].Scans(limit) + AllScans(replies[1..], limit)
  }

  function AllFlags(replies: seq<Reply>, before: byte): byte
    decreases |replies|
  {
    if replies == [] then before
    else AllFlags(replies[1..], Flag(replies[0].m, replies[0].Attributes(), before))
  }

  // ---------------------------------------------------------------- how many results a scan has

  /** A scan's results are the records of one attribute, as many as it reports, and it never reports more than are
      there or than a scan can cache. */
  lemma {:induction false} ResultsAreThere(m: Memory, w: seq<Located>, said: Said, limit: nat, k: nat)
    returns (i: nat)
    requires k < |DecodeScan(m, w, said, limit)|
    ensures var s := DecodeScan(m, w, said, limit)[k];
            && i < |w| && w[i].kind == GSCAN_ATTRIBUTE_SCAN_RESULTS
            && s.results == Records(m, w[i].data, s.numResults)
            && s.numResults <= limit && RECORD * s.numResults <= w[i].len
  {
    if Results(w[0], said) {
      i := 0;
      if k > 0 {
        i := ResultsAreThere(m, w[1..], said.(num := Taken(said.num, w[0], limit)), limit, k - 1);
        i := i + 1;
      }
    } else {
      i := ResultsAreThere(m, w[1..], Hear(m, w[0], said), limit, k);
      i := i + 1;
    }
  }

  /** Results follow a count that is negative as an int. */
  predicate NegativeCount(m: Memory, w: seq<Located>, negative: bool) {
    if w == [] then false
    else if w[0].kind == GSCAN_ATTRIBUTE_NUM_OF_RESULTS then
      NegativeCount(m, w[1..], Word32(m, w[0].data) >= 0x8000_0000)
    else if w[0].kind == GSCAN_ATTRIBUTE_SCAN_RESULTS && negative then true
    else NegativeCount(m, w[1..], negative)
  }

  predicate SomeNegative(s: seq<Scan>) {
    exists k :: 0 <= k < |s| && s[k].numResults < 0
  }

  lemma NegativeInConcat(a: Scan, s: seq<Scan>)
    ensures SomeNegative([a] + s) <==> a.numResults < 0 || SomeNegative(s)
  {
    var t := [a] + s;
    if a.numResults < 0 {
      assert t[0].numResults < 0;
    } else if SomeNegative(s) {
      var k :| 0 <= k < |s| && s[k].numResults < 0;
      assert t[k + 1].numResults < 0;
    }
  }

  /** A scan reports a negative number of results exactly when the driver announced 2^31 or more before its results:
      the count is an int, and only its upper end is limited. */
  lemma {:induction false} NegativeResults(m: Memory, w: seq<Located>, said: Said, limit: nat)
    ensures SomeNegative(DecodeScan(m, w, said, limit)) <==> NegativeCount(m, w, said.num < 0)
  {
    if w == [] {
    } else {
      var rest := w[1..];
      if Results(w[0], said) {
        var said' := said.(num := Taken(said.num, w[0], limit));
        NegativeResults(m, rest, said', limit);
        NegativeInConcat(ScanOf(m, w[0], said, limit), DecodeScan(m, rest, said', limit));
      } else {
        NegativeResults(m, rest, Hear(m, w[0], said), limit);
      }
    }
  }

  lemma NegativeAppend(a: seq<Scan>, b: seq<Scan>)
    ensures SomeNegative(a + b) <==> SomeNegative(a) || SomeNegative(b)
  {
    if k :| 0 <= k < |a| && a[k].numResults < 0 {
      assert (a + b)[k].numResults < 0;
    }
    if k :| 0 <= k < |b| && b[k].numResults < 0 {
      assert (a + b)[|a| + k].numResults < 0;
    }
    if k :| 0 <= k < |a + b| && (a + b)[k].numResults < 0 {
      assert if k < |a| then a[k].numResults < 0 else b[k - |a|].numResults < 0;
    }
  }

  /** One of the attributes of a reply holds results behind a negative count. */
  predicate NegativeAmong(m: Memory, w: seq<Located>) {
    w != [] &&
      ((HoldsScans(w[0]) && NegativeCount(m, Inside(m, w[0]), false)) || NegativeAmong(m, w[1..]))
  }

  /** So a reply brings a scan with a negative number of results exactly when one of its attributes holds such. */
  lemma {:induction false} NegativeInReply(m: Memory, w: seq<Located>, limit: nat)
    ensures SomeNegative(Decode(m, w, limit)) <==> NegativeAmong(m, w)
  {
    if w == [] {
    } else {
      var first := if HoldsScans(w[0]) then DecodeScan(m, Inside(m, w[0]), NOTHING_SAID, limit) else [];
      NegativeInReply(m, w[1..], limit);
      NegativeAppend(first, Decode(m, w[1..], limit));
      NegativeResults(m, Inside(m, w[0]), NOTHING_SAID, limit);
    }
  }

  /** A reply with one scan that announces 2^31 results and holds none. */
  function Overflowing(): Reply {
    var m := EncodeAll([Nest(GSCAN_ATTRIBUTE_SCAN_RESULTS, OVERFLOWING_SCAN)]);
    Reply(true, m, Some(Located(0, 0, |m|)))
  }

  const OVERFLOWING_SCAN: seq<Attr> :=
    [Word(GSCAN_ATTRIBUTE_NUM_OF_RESULTS, 0x8000_0000), Raw(GSCAN_ATTRIBUTE_SCAN_RESULTS, [])]

  lemma NegativeScanExists(limit: nat)
    ensures SomeNegative(Overflowing().Scans(limit))
  {
    var r := Overflowing();
    var outer := [Nest(GSCAN_ATTRIBUTE_SCAN_RESULTS, OVERFLOWING_SCAN)];
    OverflowingLength();
    WalkFindsEncoded(r.m, 0, outer);
    var w := r.Attributes();
    assert Shown(r.m, w[0], outer[0]);
    OverflowingCount(r.m, w[0]);
    NegativeInReply(r.m, w, limit);
  }

  lemma OverflowingLength()
    ensures |EncodeAll(OVERFLOWING_SCAN)| == 12
    ensures |EncodeAll([Nest(GSCAN_ATTRIBUTE_SCAN_RESULTS, OVERFLOWING_SCAN)])| == 16
  {
    var s := OVERFLOWING_SCAN;
    assert s == [s[0]] + [s[1]];
    EncodeAllAppend([s[0]], [s[1]]);
    EncodeOne(s[0]);
    EncodeOne(s[1]);
    assert Payload(s[0]) == U32(0x8000_0000) && Payload(s[1]) == [];
    var nest := Nest(GSCAN_ATTRIBUTE_SCAN_RESULTS, s);
    assert Payload(nest) == EncodeAll(s);
    EncodeOne(nest);
  }

  lemma OverflowingCount(m: Memory, l: Located)
    requires Shown(m, l, Nest(GSCAN_ATTRIBUTE_SCAN_RESULTS, OVERFLOWING_SCAN))
    ensures NegativeCount(m, Inside(m, l), false)
  {
    var s := OVERFLOWING_SCAN;
    OverflowingLength();
    assert Payload(Nest(GSCAN_ATTRIBUTE_SCAN_RESULTS, s)) == EncodeAll(s);
    assert Fits(s[0]) && Fits(s[1]);
    WalkFindsEncoded(m, l.data, s);
    var w := Inside(m, l);
    assert Shown(m, w[0], s[0]) && Shown(m, w[1], s[1]);
    HoldsWord32(m, w[0].data, 0x8000_0000);
    assert w[1..][0] == w[1];
  }

  // ---------------------------------------------------------------- the first of them

  function First<T>(n: nat, s: seq<T>): (r: seq<T>)
    ensures |r| == Min(n, |s|)
  {
    if n == 0 || s == [] then [] else [s[0]] + First(n - 1, s[1..])
  }

  lemma {:induction false} FirstAppend<T>(n: nat, a: seq<T>, b: seq<T>)
    ensures First(n, a + b) == First(n, a) + First(n - |First(n, a)|, b)
  {
    if n == 0 || a == [] {
      assert a + b == if a == [] then b else a + b;
    } else {
      assert (a + b)[1..] == a[1..] + b;
      FirstAppend(n - 1, a[1..], b);
    }
  }

  lemma {:induction false} FirstOfFew<T>(n: nat, a: seq<T>)
    requires |a| <= n
    ensures First(n, a) == a
  {
    if a == [] {
    } else {
      FirstOfFew(n - 1, a[1..]);
    }
  }

  lemma FirstAgain<T>(n: nat, a: seq<T>, b: seq<T>)
    ensures First(n, First(n, a) + b) == First(n, a + b)
  {
    FirstAppend(n, a, b);
    FirstAppend(n, First(n, a), b);
    FirstOfFew(n, First(n, a));
  }

  lemma FirstFull<T>(n: nat, a: seq<T>, b: seq<T>)
    requires |a| == n
    ensures First(n, a + b) == a
  {
    FirstAppend(n, a, b);
    FirstOfFew(n, a);
  }

  /** How many scans the attributes hold: one for each results attribute in front of which the count is not 0, by
      what was announced, or taken last, before it. */
  function ScansIn(m: Memory, w: seq<Located>, num: int, limit: nat): nat {
    if w == [] then 0
    else if w[0].kind == GSCAN_ATTRIBUTE_NUM_OF_RESULTS then ScansIn(m, w[1..], Signed(Word32(m, w[0].data)), limit)
    else if w[0].kind == GSCAN_ATTRIBUTE_SCAN_RESULTS && num != 0 then
      1 + ScansIn(m, w[1..], Taken(num, w[0], limit), limit)
    else ScansIn(m, w[1..], num, limit)
  }

  /** Results follow a negative count before `room` scans have been taken. */
  predicate NegativeWithin(m: Memory, w: seq<Located>, num: int, limit: nat, room: nat) {
    && w != [] && room > 0
    && if w[0].kind == GSCAN_ATTRIBUTE_NUM_OF_RESULTS then
         NegativeWithin(m, w[1..], Signed(Word32(m, w[0].data)), limit, room)
       else if w[0].kind == GSCAN_ATTRIBUTE_SCAN_RESULTS && num != 0 then
         num < 0 || NegativeWithin(m, w[1..], Taken(num, w[0], limit), limit, room - 1)
       else NegativeWithin(m, w[1..], num, limit, room)
  }

  lemma {:induction false} NegativeFirst(m: Memory, w: seq<Located>, said: Said, limit: nat, room: nat)
    ensures |DecodeScan(m, w, said, limit)| == ScansIn(m, w, said.num, limit)
    ensures SomeNegative(First(room, DecodeScan(m, w, said, limit))) <==> NegativeWithin(m, w, said.num, limit, room)
  {
    if w == [] {
    } else if Results(w[0], said) {
      var said' := said.(num := Taken(said.num, w[0], limit));
      if room == 0 {
        NegativeFirst(m, w[1..], said', limit, 0);
      } else {
        NegativeFirst(m, w[1..], said', limit, room - 1);
        FirstOfCons(room, ScanOf(m, w[0], said, limit), DecodeScan(m, w[1..], said', limit));
        NegativeInConcat(ScanOf(m, w[0], said, limit), First(room - 1, DecodeScan(m, w[1..], said', limit)));
      }
    } else {
      NegativeFirst(m, w[1..], Hear(m, w[0], said), limit, room);
    }
  }

  lemma FirstOfCons<T>(n: nat, x: T, s: seq<T>)
    requires n > 0
    ensures First(n, [x] + s) == [x] + First(n - 1, s)
  {
    assert ([x] + s)[1..] == s;
  }

  /** One of the attributes of a reply holds results behind a negative count, before all the room is taken. */
  predicate NegativeBefore(m: Memory, w: seq<Located>, limit: nat, room: nat) {
    w != [] &&
      if HoldsScans(w[0]) then
        var inside := Inside(m, w[0]);
        || NegativeWithin(m, inside, 0, limit, room)
        || NegativeBefore(m, w[1..], limit, room - Min(room, ScansIn(m, inside, 0, limit)))
      else NegativeBefore(m, w[1..], limit, room)
  }

  lemma {:induction false} NegativeInFirst(m: Memory, w: seq<Located>, limit: nat, room: nat)
    ensures SomeNegative(First(room, Decode(m, w, limit))) <==> NegativeBefore(m, w, limit, room)
  {
    if w == [] {
    } else {
      var rest := Decode(m, w[1..], limit);
      if HoldsScans(w[0]) {
        var first := DecodeScan(m, Inside(m, w[0]), NOTHING_SAID, limit);
        NegativeFirst(m, Inside(m, w[0]), NOTHING_SAID, limit, room);
        FirstAppend(room, first, rest);
        NegativeAppend(First(room, first), First(room - |First(room, first)|, rest));
        NegativeInFirst(m, w[1..], limit, room - Min(room, |first|));
      } else {
        assert [] + rest == rest;
        NegativeInFirst(m, w[1..], limit, room);
      }
    }
  }

  lemma NegativeInHeld(held: seq<Scan>, scans: seq<Scan>, n: nat)
    requires |held| <= n
    ensures SomeNegative(First(n, held + scans)) <==> SomeNegative(held) || SomeNegative(First(n - |held|, scans))
  {
    FirstAppend(n, held, scans);
    FirstOfFew(n, held);
    NegativeAppend(held, First(n - |held|, scans));
  }

  /** When the caller's array has room for n scans, what is held after a reply has a negative number exactly when what
      was held before has one, or the attributes of the reply bring one before the room that is left is taken. */
  lemma NegativeHeld(held: seq<Scan>, r: Reply, limit: nat, n: nat)
    requires |held| <= n
    ensures SomeNegative(First(n, held + r.Scans(limit)))
       <==> SomeNegative(held) || NegativeBefore(r.m, r.Attributes(), limit, n - |held|)
  {
    NegativeInHeld(held, r.Scans(limit), n);
    NegativeInFirst(r.m, r.Attributes(), limit, n - |held|);
  }

  function Room(max: int): nat { if max < 0 then 0 else max }

  // ---------------------------------------------------------------- the command

  /** An element of the caller's array, with room for as many results as a scan can cache. */
  datatype CachedScan = CachedScan(scanId: int, flags: int, numResults: int, bucketsScanned: int, results: seq<Ap>)

  /** What the caller sees of it. */
  function View(c: CachedScan): Scan {
    Scan(c.scanId, c.flags, c.bucketsScanned, c.numResults,
         if c.numResults < 0 then [] else c.results[..Min(c.numResults, |c.results|)])
  }

  function Views(s: seq<CachedScan>): (r: seq<Scan>)
    ensures |r| == |s|
  {
    if s == [] then [] else Views(s[..|s| - 1]) + [View(s[|s| - 1])]
  }

  /** What the driver brings in one round: whether the request could be made, the replies, and the final result. */
  type Code = c: int | c <= 0
  datatype Round = Round(create: Code, replies: seq<Reply>, result: Code)

  lemma Overwritten<T>(s: seq<T>, t: seq<T>, i: nat, x: T)
    requires i < |s| == |t| && s[i..] == t[i..]
    ensures s[i := x][..i + 1] == s[..i] + [x] && s[i := x][i + 1..] == t[i + 1..]
  {
    assert s[i + 1..] == s[i..][1..] && t[i + 1..] == t[i..][1..];
  }

  /** Overwrites the first elements with what f counts off. */
  method CopyOver<T>(f: int -> T, num: int, into: seq<T>) returns (results: seq<T>)
    requires num <= |into|
    ensures |results| == |into|
    ensures num >= 0 ==> results[..num] == Counted(f, num) && results[num..] == into[num..]
    ensures num < 0 ==> results == into
  {
    results := into;
    var i := 0;
    while i < num
      invariant 0 <= i && (if num < 0 then i == 0 else i <= num) && |results| == |into|
      invariant num >= 0 ==> results[..i] == Counted(f, i) && results[i..] == into[i..]
      invariant num < 0 ==> results == into
    {
      Overwritten(results, into, i, f(i));
      results := results[i := f(i)];
      i := i + 1;
    }
  }

  class GetScanResultsCommand {
    const scans: array<CachedScan>
    const max: int
    const limit: nat
    var retrieved: nat
    var completed: byte

    predicate Valid()
      reads this, scans
    {
      && retrieved <= Room(max) <= scans.Length
      && forall i :: 0 <= i < scans.Length ==> |scans[i].results| == limit
    }

    function Stored(): (s: seq<Scan>)
      requires Valid()
      reads this, scans
      ensures |s| == retrieved
    {
      Views(scans[..retrieved])
    }

    constructor (scans: array<CachedScan>, max: int, limit: nat)
      requires max <= scans.Length && forall i :: 0 <= i < scans.Length ==> |scans[i].results| == limit
      ensures Valid() && this.scans == scans && this.max == max && this.limit == limit
      ensures Stored() == [] && completed == 0
    {
      this.scans, this.max, this.limit := scans, max, limit;
      this.retrieved, this.completed := 0, 0;
    }

    /** Copies the records of an attribute into the next element and fills in the rest of it. */
    method Store(m: Memory, a: Located, said: Said)
      requires Valid() && retrieved < max && Results(a, said)
      modifies this`retrieved, scans
      ensures Valid() && retrieved == old(retrieved) + 1
      ensures Stored() == old(Stored()) + [ScanOf(m, a, said, limit)]
      ensures forall i :: retrieved <= i < scans.Length ==> scans[i] == old(scans[i])
    {
      ghost var before := scans[..retrieved];
      var num := Taken(said.num, a, limit);
      var results := CopyOver(Record(m, a.data), num, scans[retrieved].results);
      var c := CachedScan(said.scanId, said.flags, num, said.mask, results);
      scans[retrieved] := c;
      retrieved := retrieved + 1;
      assert scans[..retrieved] == before + [c];
      assert View(c) == ScanOf(m, a, said, limit);
    }

    /** The attributes of one scan. */
    method HandleScan(m: Memory, attr: Located)
      requires Valid()
      modifies this`retrieved, scans
      ensures Valid()
      ensures Stored() == First(Room(max), old(Stored()) + DecodeScan(m, Inside(m, attr), NOTHING_SAID, limit))
      ensures forall i :: retrieved <= i < scans.Length ==> scans[i] == old(scans[i])
    {
      var said := NOTHING_SAID;
      var it := new NlIterator(m, attr);
      ghost var goal := First(Room(max), Stored() + DecodeScan(m, it.Rest(), said, limit));
      var more := it.HasNext();
      while more
        invariant Valid() && it.mem == m && (more <==> it.Rest() != [])
        invariant First(Room(max), Stored() + DecodeScan(m, it.Rest(), said, limit)) == goal
        invariant forall i :: retrieved <= i < scans.Length ==> scans[i] == old(scans[i])
        decreases |it.Rest()|
      {
        ghost var rest := it.Rest();
        var a := it.Get();
        if Results(a, said) {
          if retrieved >= max {
            FirstFull(Room(max), Stored(), DecodeScan(m, rest, said, limit));
            return;
          }
          ghost var stored := Stored();
          Store(m, a, said);
          ghost var num := Taken(said.num, a, limit);
          Assoc(stored, [ScanOf(m, a, said, limit)], DecodeScan(m, rest[1..], said.(num := num), limit));
          said := said.(num := Taken(said.num, a, limit));
        } else {
          said := Hear(m, a, said);
        }
        it.Next();
        more := it.HasNext();
      }
      FirstOfFew(Room(max), Stored());
      assert Stored() + [] == Stored();
    }

    method HandleAttribute(m: Memory, a: Located)
      requires Valid()
      modifies this, scans
      ensures Valid()
      ensures Stored() == First(Room(max), old(Stored()) +
                if HoldsScans(a) then DecodeScan(m, Inside(m, a), NOTHING_SAID, limit) else [])
      ensures completed == if a.kind == GSCAN_ATTRIBUTE_SCAN_RESULTS_COMPLETE then At(m, a.data) else old(completed)
      ensures forall i :: retrieved <= i < scans.Length ==> scans[i] == old(scans[i])
    {
      FirstOfFew(Room(max), Stored());
      assert Stored() + [] == Stored();
      if a.kind == GSCAN_ATTRIBUTE_SCAN_RESULTS_COMPLETE {
        completed := At(m, a.data);
      } else if HoldsScans(a) {
        HandleScan(m, a);
      }
    }

    method HandleResponse(r: Reply)
      requires Valid()
      modifies this, scans
      ensures Valid()
      ensures Stored() == First(Room(max), old(Stored()) + r.Scans(limit))
      ensures completed == Flag(r.m, r.Attributes(), old(completed))
      ensures forall i :: retrieved <= i < scans.Length ==> scans[i] == old(scans[i])
    {
      if !r.vendorCommand || r.data.None? || r.data.value.len == 0 {
        FirstOfFew(Room(max), Stored());
        assert Stored() + [] == Stored();
        return;
      }
      var it := new NlIterator(r.m, r.data.value);
      ghost var w, held := it.Rest(), Stored();
      ghost var goal := First(Room(max), held + Decode(r.m, w, limit));
      ghost var flag := Flag(r.m, w, completed);
      var more := it.HasNext();
      while more
        invariant Valid() && it.mem == r.m && w == it.Rest() && held == Stored() && (more <==> w != [])
        invariant First(Room(max), held + Decode(r.m, w, limit)) == goal
        invariant Flag(r.m, w, completed) == flag
        invariant forall i :: retrieved <= i < scans.Length ==> scans[i] == old(scans[i])
        decreases |w|
      {
        DecodeFirst(r.m, w, limit, held, Room(max));
        var a := it.Get();
        HandleAttribute(r.m, a);
        it.Next();
        w, held := w[1..], Stored();
        more := it.HasNext();
      }
      FirstOfFew(Room(max), Stored());
      assert Stored() + [] == Stored();
    }

    method HandleReplies(replies: seq<Reply>)
      requires Valid()
      modifies this, scans
      ensures Valid()
      ensures Stored() == First(Room(max), old(Stored()) + AllScans(replies, limit))
      ensures completed == AllFlags(replies, old(completed))
      ensures forall i :: retrieved <= i < scans.Length ==> scans[i] == old(scans[i])
    {
      ghost var before, flag := Stored(), completed;
      FirstOfFew(Room(max), Stored());
      assert Stored() + [] == Stored();
      var k := 0;
      while k < |replies|
        invariant 0 <= k <= |replies| && Valid()
        invariant First(Room(max), Stored() + AllScans(replies[k..], limit))
               == First(Room(max), before + AllScans(replies, limit))
        invariant AllFlags(replies[k..], completed) == AllFlags(replies, flag)
        invariant forall i :: retrieved <= i < scans.Length ==> scans[i] == old(scans[i])
      {
        RepliesFirst(replies[k..], limit, Stored(), Room(max));
        HandleResponse(replies[k]);
        k := k + 1;
      }
      FirstOfFew(Room(max), Stored());
      assert Stored() + [] == Stored();
    }

    /** Asks the driver, for as many scans as there is still room for, until there is no room, a round has stored
        nothing, the driver has said that it is done, or ten rounds have passed. What the driver would do in each
        round is given; the requests made are reported, and the number of scans when all has gone well. */
    method Execute(driver: seq<Round>) returns (result: Code, requests: seq<int>, num: Option<nat>)
      requires Valid() && retrieved == 0 && completed == 0 && |driver| == ROUNDS
      modifies this, scans
      ensures Valid()
      ensures Ended(result, Progress(Stored(), completed, requests))
           == Rounds(max, limit, driver, 0, Progress([], 0, []))
      ensures num == if result == 0 then Some(|Stored()|) else None
    {
      requests, num := [], None;
      assert Stored() == [];
      var i, more := 0, true;
      ghost var p := Progress([], 0, []);
      ghost var end := Rounds(max, limit, driver, 0, p);
      while i < ROUNDS && retrieved < max && more
        invariant 0 <= i <= ROUNDS && Valid() && num == None && p == Progress(Stored(), completed, requests)
        invariant end == if more then Rounds(max, limit, driver, i, p) else Ended(0, p)
        decreases ROUNDS - i
      {
        result := driver[i].create;
        if result < 0 {
          return;
        }
        var numToRetrieve := max - retrieved;
        requests := requests + [numToRetrieve];
        var prevRetrieved := retrieved;
        HandleReplies(driver[i].replies);
        RoundIs(max, limit, driver[i], p, Stored(), completed, requests);
        p := Progress(Stored(), completed, requests);
        result := driver[i].result;
        if result != 0 {
          return;
        }
        more := !(retrieved == prevRetrieved || completed != 0);
        i := i + 1;
      }
      num := Some(retrieved);
      result := 0;
    }
  }

  /** Taking the scans of the first attribute and then those of the others. */
  lemma DecodeFirst(m: Memory, w: seq<Located>, limit: nat, stored: seq<Scan>, n: nat)
    requires w != []
    ensures var d := if HoldsScans(w[0]) then DecodeScan(m, Inside(m, w[0]), NOTHING_SAID, limit) else [];
            && First(n, First(n, stored + d) + Decode(m, w[1..], limit)) == First(n, stored + Decode(m, w, limit))
            && (!HoldsScans(w[0]) ==> Decode(m, w, limit) == Decode(m, w[1..], limit))
  {
    var d := if HoldsScans(w[0]) then DecodeScan(m, Inside(m, w[0]), NOTHING_SAID, limit) else [];
    FirstAgain(n, stored + d, Decode(m, w[1..], limit));
    Assoc(stored, d, Decode(m, w[1..], limit));
  }

  lemma RepliesFirst(replies: seq<Reply>, limit: nat, stored: seq<Scan>, n: nat)
    requires replies != []
    ensures First(n, First(n, stored + replies[0].Scans(limit)) + AllScans(replies[1..], limit))
         == First(n, stored + AllScans(replies, limit))
  {
    FirstAgain(n, stored + replies[0].Scans(limit), AllScans(replies[1..], limit));
    Assoc(stored, replies[0].Scans(limit), AllScans(replies[1..], limit));
  }

  // ---------------------------------------------------------------- the rounds

  const ROUNDS: nat := 10

  /** What has been stored, the completion flag, and the requests made. */
  datatype Progress = Progress(held: seq<Scan>, flag: byte, requests: seq<int>)
  datatype Ended = Ended(result: Code, progress: Progress)

  function AfterRound(max: int, limit: nat, r: Round, p: Progress): Progress {
    Progress(First(Room(max), p.held + AllScans(r.replies, limit)), AllFlags(r.replies, p.flag),
             p.requests + [max - |p.held|])
  }

  lemma RoundIs(max: int, limit: nat, r: Round, p: Progress, held: seq<Scan>, flag: byte, requests: seq<int>)
    requires held == First(Room(max), p.held + AllScans(r.replies, limit))
    requires flag == AllFlags(r.replies, p.flag) && requests == p.requests + [max - |p.held|]
    ensures Progress(held, flag, requests) == AfterRound(max, limit, r, p)
  {}

  function Rounds(max: int, limit: nat, driver: seq<Round>, i: nat, p: Progress): Ended
    requires i <= |driver| == ROUNDS
    decreases |driver| - i
  {
    if i == ROUNDS || |p.held| >= max then Ended(0, p)
    else if driver[i].create < 0 then Ended(driver[i].create, p)
    else
      var p' := AfterRound(max, limit, driver[i], p);
      if driver[i].result != 0 then Ended(driver[i].result, p')
      else if |p'.held| == |p.held| || p'.flag != 0 then Ended(0, p')
      else Rounds(max, limit, driver, i + 1, p')
  }

  /** All the scans the driver sends in its first n rounds. */
  function Sent(driver: seq<Round>, limit: nat, n: nat): seq<Scan>
    requires n <= |driver|
  {
    if n == 0 then [] else Sent(driver, limit, n - 1) + AllScans(driver[n - 1].replies, limit)
  }

  function FlagAfter(driver: seq<Round>, n: nat): byte
    requires n <= |driver|
  {
    if n == 0 then 0 else AllFlags(driver[n - 1].replies, FlagAfter(driver, n - 1))
  }

  /** What there is room for of what the driver sends in its first n rounds. */
  function Kept(max: int, limit: nat, driver: seq<Round>, n: nat): seq<Scan>
    requires n <= |driver|
  {
    First(Room(max), Sent(driver, limit, n))
  }

  /** A round stored something and the driver did not say it was done. */
  predicate GoesOn(max: int, limit: nat, driver: seq<Round>, n: nat)
    requires n < |driver|
  {
    && driver[n].create == 0 && driver[n].result == 0
    && |Kept(max, limit, driver, n + 1)| > |Kept(max, limit, driver, n)|
    && FlagAfter(driver, n + 1) == 0
  }

  /** After n rounds: each request was for exactly the room left, and there was some; and what is stored is the first
      of all that was sent. */
  predicate Exact(max: int, limit: nat, driver: seq<Round>, p: Progress, n: nat)
    requires n <= |driver|
  {
    && |p.requests| == n
    && (forall k :: 0 <= k < n ==> p.requests[k] == max - |Kept(max, limit, driver, k)| > 0)
    && p.held == Kept(max, limit, driver, n)
    && p.flag == FlagAfter(driver, n)
  }

  /** Success is reported when there is no room, the last round did not go on, or ten have passed; an error is that of
      the last request, or of making the next. */
  predicate EndsForAReason(max: int, limit: nat, driver: seq<Round>, e: Ended, n: nat)
    requires n <= |driver| == ROUNDS
  {
    if e.result == 0 then
      || n == ROUNDS
      || |e.progress.held| >= max
      || (n > 0 && (|e.progress.held| == |Kept(max, limit, driver, n - 1)| || e.progress.flag != 0))
    else
      || (n > 0 && e.result == driver[n - 1].result)
      || (n < ROUNDS && e.result == driver[n].create)
  }

  predicate RunsAsIntended(max: int, limit: nat, driver: seq<Round>, e: Ended)
    requires |driver| == ROUNDS
  {
    var n := |e.progress.requests|;
    && n <= ROUNDS
    && Exact(max, limit, driver, e.progress, n)
    && (forall k :: 0 <= k < n - 1 ==> GoesOn(max, limit, driver, k))
    && EndsForAReason(max, limit, driver, e, n)
  }

  lemma KeptNext(max: int, limit: nat, driver: seq<Round>, i: nat)
    requires i < |driver|
    ensures First(Room(max), Kept(max, limit, driver, i) + AllScans(driver[i].replies, limit))
         == Kept(max, limit, driver, i + 1)
  {
    FirstAgain(Room(max), Sent(driver, limit, i), AllScans(driver[i].replies, limit));
  }

  lemma ExactNext(max: int, limit: nat, driver: seq<Round>, i: nat, p: Progress)
    requires i < |driver| && Exact(max, limit, driver, p, i) && |p.held| < max
    ensures Exact(max, limit, driver, AfterRound(max, limit, driver[i], p), i + 1)
  {
    KeptNext(max, limit, driver, i);
    var p' := AfterRound(max, limit, driver[i], p);
    forall k | 0 <= k < i + 1 ensures p'.requests[k] == max - |Kept(max, limit, driver, k)| > 0 {
      assert k < i ==> p'.requests[k] == p.requests[k];
    }
  }

  lemma GoesOnNow(max: int, limit: nat, driver: seq<Round>, i: nat, p: Progress)
    requires i < |driver| && Exact(max, limit, driver, p, i)
    requires var p' := AfterRound(max, limit, driver[i], p);
             && Exact(max, limit, driver, p', i + 1)
             && driver[i].create == 0 && driver[i].result == 0 && |p'.held| != |p.held| && p'.flag == 0
    ensures GoesOn(max, limit, driver, i)
  {
    var p' := AfterRound(max, limit, driver[i], p);
    assert |p'.held| >= |p.held|;
  }

  lemma IntendedEnd(max: int, limit: nat, driver: seq<Round>, n: nat, e: Ended)
    requires n <= |driver| == ROUNDS && Exact(max, limit, driver, e.progress, n)
    requires forall k :: 0 <= k < n - 1 ==> GoesOn(max, limit, driver, k)
    requires EndsForAReason(max, limit, driver, e, n)
    ensures RunsAsIntended(max, limit, driver, e)
  {}

  /** The retrieval ends with round i, or goes on after it. */
  lemma RoundEndsOrGoesOn(max: int, limit: nat, driver: seq<Round>, i: nat, p: Progress)
    requires i < |driver| == ROUNDS && Exact(max, limit, driver, p, i) && |p.held| < max && driver[i].create == 0
    requires forall k :: 0 <= k < i ==> GoesOn(max, limit, driver, k)
    ensures var p' := AfterRound(max, limit, driver[i], p);
            if driver[i].result != 0 then RunsAsIntended(max, limit, driver, Ended(driver[i].result, p'))
            else if |p'.held| == |p.held| || p'.flag != 0 then RunsAsIntended(max, limit, driver, Ended(0, p'))
            else Exact(max, limit, driver, p', i + 1) && GoesOn(max, limit, driver, i)
  {
    var p' := AfterRound(max, limit, driver[i], p);
    ExactNext(max, limit, driver, i, p);
    if driver[i].result != 0 {
      IntendedEnd(max, limit, driver, i + 1, Ended(driver[i].result, p'));
    } else if |p'.held| == |p.held| || p'.flag != 0 {
      IntendedEnd(max, limit, driver, i + 1, Ended(0, p'));
    } else {
      GoesOnNow(max, limit, driver, i, p);
    }
  }

  /** The retrieval makes another request after that of round i. */
  predicate Continues(max: int, limit: nat, driver: seq<Round>, i: nat, p: Progress)
    requires i <= |driver| == ROUNDS
  {
    && i < ROUNDS && |p.held| < max && driver[i].create == 0 && driver[i].result == 0
    && var p' := AfterRound(max, limit, driver[i], p);
       |p'.held| != |p.held| && p'.flag == 0
  }

  /** All the rounds before i have gone on. */
  predicate Underway(max: int, limit: nat, driver: seq<Round>, i: nat, p: Progress)
    requires i <= |driver| == ROUNDS
  {
    Exact(max, limit, driver, p, i) && forall k :: 0 <= k < i ==> GoesOn(max, limit, driver, k)
  }

  lemma RoundsContinue(max: int, limit: nat, driver: seq<Round>, i: nat, p: Progress, p': Progress)
    requires i <= |driver| == ROUNDS && Underway(max, limit, driver, i, p) && Continues(max, limit, driver, i, p)
    requires p' == AfterRound(max, limit, driver[i], p)
    ensures Underway(max, limit, driver, i + 1, p')
    ensures Rounds(max, limit, driver, i, p) == Rounds(max, limit, driver, i + 1, p')
  {
    RoundEndsOrGoesOn(max, limit, driver, i, p);
  }

  lemma RoundsStop(max: int, limit: nat, driver: seq<Round>, i: nat, p: Progress)
    requires i <= |driver| == ROUNDS && Underway(max, limit, driver, i, p) && !Continues(max, limit, driver, i, p)
    ensures RunsAsIntended(max, limit, driver, Rounds(max, limit, driver, i, p))
  {
    if i == ROUNDS || |p.held| >= max {
      IntendedEnd(max, limit, driver, i, Ended(0, p));
    } else if driver[i].create < 0 {
      IntendedEnd(max, limit, driver, i, Ended(driver[i].create, p));
    } else {
      RoundEndsOrGoesOn(max, limit, driver, i, p);
    }
  }

  /** How the retrieval ends from round i on. */
  lemma {:induction false} RoundsFrom(max: int, limit: nat, driver: seq<Round>, i: nat, p: Progress)
    returns (e: Ended)
    requires i <= |driver| == ROUNDS && Underway(max, limit, driver, i, p)
    ensures e == Rounds(max, limit, driver, i, p) && RunsAsIntended(max, limit, driver, e)
    decreases |driver| - i
  {
    if Continues(max, limit, driver, i, p) {
      var p' := AfterRound(max, limit, driver[i], p);
      RoundsContinue(max, limit, driver, i, p, p');
      e := RoundsFrom(max, limit, driver, i + 1, p');
    } else {
      RoundsStop(max, limit, driver, i, p);
      e := Rounds(max, limit, driver, i, p);
    }
  }

  /** Against any driver: at most ten requests, each for exactly the room left; what is stored at the end is the first
      of all the scans the driver sent, in order; and the retrieval stops early only for a reason. */
  lemma RetrievalRunsAsIntended(max: int, limit: nat, driver: seq<Round>)
    requires |driver| == ROUNDS
    ensures RunsAsIntended(max, limit, driver, Rounds(max, limit, driver, 0, Progress([], 0, [])))
  {
    var _ := RoundsFrom(max, limit, driver, 0, Progress([], 0, []));
  }
}
