/** The scan setup request: buckets and their channels as nested attributes, built in a message of fixed size. */
module ScanRequest {
  import opened Bytes
  import HandlerTables
  import opened Netlink
  import opened Sequences
  import opened WifiRequests

  const NL80211_ATTR_IFINDEX: u16 := 3
  const NL80211_ATTR_VENDOR_ID: u16 := 195
  const NL80211_ATTR_VENDOR_SUBCMD: u16 := 196
  const NL80211_ATTR_VENDOR_DATA: u16 := 197

  const GSCAN_SUBCMD_SET_CONFIG: u32 := 0x1001

  const GSCAN_ATTRIBUTE_NUM_BUCKETS: u16 := 10
  const GSCAN_ATTRIBUTE_BASE_PERIOD: u16 := 11
  const GSCAN_ATTRIBUTE_BUCKETS_BAND: u16 := 12
  const GSCAN_ATTRIBUTE_BUCKET_ID: u16 := 13
  const GSCAN_ATTRIBUTE_BUCKET_PERIOD: u16 := 14
  const GSCAN_ATTRIBUTE_BUCKET_NUM_CHANNELS: u16 := 15
  const GSCAN_ATTRIBUTE_BUCKET_CHANNELS: u16 := 16
  const GSCAN_ATTRIBUTE_REPORT_EVENTS: u16 := 24
  const GSCAN_ATTRIBUTE_BUCKET_STEP_COUNT: u16 := 120
  const GSCAN_ATTRIBUTE_BUCKET_MAX_PERIOD: u16 := 121

  datatype Bucket = Bucket(
    bucket: i32, period: i32, band: i32, stepCount: i32, maxPeriod: i32, reportEvents: i32, channels: seq<i32>)

  datatype Params = Params(basePeriod: i32, buckets: seq<Bucket>)

  /** The counts of a request are ints. */
  predicate Countable(p: Params) {
    |p.buckets| < 0x8000_0000 && forall b :: b in p.buckets ==> |b.channels| < 0x8000_0000
  }

  // ---------------------------------------------------------------- the request as attributes

  function Int(kind: u16, v: i32): Attr { Word(kind, Unsigned(v)) }

  function Fields(b: Bucket): seq<Attr>
    requires |b.channels| < 0x8000_0000
  {
    [Int(GSCAN_ATTRIBUTE_BUCKET_ID, b.bucket),
     Int(GSCAN_ATTRIBUTE_BUCKET_PERIOD, b.period),
     Int(GSCAN_ATTRIBUTE_BUCKETS_BAND, b.band),
     Int(GSCAN_ATTRIBUTE_BUCKET_STEP_COUNT, b.stepCount),
     Int(GSCAN_ATTRIBUTE_BUCKET_MAX_PERIOD, b.maxPeriod),
     Int(GSCAN_ATTRIBUTE_REPORT_EVENTS, b.reportEvents),
     Int(GSCAN_ATTRIBUTE_BUCKET_NUM_CHANNELS, |b.channels|)]
  }

  /** An index passed for the 16 bits of a type. */
  function Index(i: nat): u16 { i % 0x1_0000 }

  /** The j-th channel goes into an attribute of type j. */
  function Channels(c: seq<i32>, n: nat): (s: seq<Attr>)
    requires n <= |c|
    ensures |s| == n
  {
    if n == 0 then [] else Channels(c, n - 1) + [Int(Index(n - 1), c[n - 1])]
  }

  function Body(b: Bucket): seq<Attr>
    requires |b.channels| < 0x8000_0000
  {
    Fields(b) +
    if b.channels == [] then [] else [Nest(GSCAN_ATTRIBUTE_BUCKET_CHANNELS, Channels(b.channels, |b.channels|))]
  }

  /** The i-th bucket is a nest of type i. */
  function Buckets(p: Params, n: nat): (s: seq<Attr>)
    requires Countable(p) && n <= |p.buckets|
    ensures |s| == n
  {
    if n == 0 then [] else Buckets(p, n - 1) + [Nest(Index(n - 1), Body(p.buckets[n - 1]))]
  }

  lemma {:induction false} ChannelAt(c: seq<i32>, n: nat, j: nat)
    requires j < n <= |c|
    ensures Channels(c, n)[j] == Int(Index(j), c[j])
  {
    if j == n - 1 {
    } else {
      ChannelAt(c, n - 1, j);
    }
  }

  lemma {:induction false} BucketAt(p: Params, n: nat, i: nat)
    requires Countable(p) && i < n <= |p.buckets|
    ensures Buckets(p, n)[i] == Nest(Index(i), Body(p.buckets[i]))
  {
    if i == n - 1 {
    } else {
      BucketAt(p, n - 1, i);
    }
  }

  function Counts(p: Params): seq<Attr>
    requires Countable(p)
  {
    [Int(GSCAN_ATTRIBUTE_BASE_PERIOD, p.basePeriod), Int(GSCAN_ATTRIBUTE_NUM_BUCKETS, |p.buckets|)]
  }

  function Data(p: Params): seq<Attr>
    requires Countable(p)
  {
    Counts(p) + Buckets(p, |p.buckets|)
  }

  /** What every vendor request begins with. */
  function Vendor(subcmd: u32, iface: i32): seq<Attr> {
    [Word(NL80211_ATTR_VENDOR_ID, HandlerTables.GOOGLE_OUI), Word(NL80211_ATTR_VENDOR_SUBCMD, subcmd)] +
    if iface != -1 then [Int(NL80211_ATTR_IFINDEX, iface)] else []
  }

  function Message(p: Params, iface: i32): seq<Attr>
    requires Countable(p)
  {
    Vendor(GSCAN_SUBCMD_SET_CONFIG, iface) + [Nest(NL80211_ATTR_VENDOR_DATA, Data(p))]
  }

  // ---------------------------------------------------------------- reading it back

  function ReadWords(m: Memory, w: seq<Located>): (r: seq<i32>)
    ensures |r| == |w| && forall j :: 0 <= j < |w| ==> r[j] == Signed(Word32(m, w[j].data))
  {
    if w == [] then [] else [Signed(Word32(m, w[0].data))] + ReadWords(m, w[1..])
  }

  const FIELD_KINDS: seq<u16> := [
    GSCAN_ATTRIBUTE_BUCKET_ID, GSCAN_ATTRIBUTE_BUCKET_PERIOD, GSCAN_ATTRIBUTE_BUCKETS_BAND,
    GSCAN_ATTRIBUTE_BUCKET_STEP_COUNT, GSCAN_ATTRIBUTE_BUCKET_MAX_PERIOD, GSCAN_ATTRIBUTE_REPORT_EVENTS,
    GSCAN_ATTRIBUTE_BUCKET_NUM_CHANNELS]

  function Kinds(w: seq<Located>): (r: seq<u16>)
    ensures |r| == |w|
  {
    if w == [] then [] else [w[0].kind] + Kinds(w[1..])
  }

  lemma {:induction false} KindAt(w: seq<Located>, k: nat)
    requires k < |w|
    ensures Kinds(w)[k] == w[k].kind
  {
    if k == 0 {
    } else {
      KindAt(w[1..], k - 1);
    }
  }

  function ReadBucket(m: Memory, a: Located): Option<Bucket> {
    var w := Inside(m, a);
    if |w| < 7 || Kinds(w[..7]) != FIELD_KINDS then None
    else
      var v := ReadWords(m, w[..7]);
      if |w| == 7 then
        if v[6] == 0 then Some(Bucket(v[0], v[1], v[2], v[3], v[4], v[5], [])) else None
      else if |w| == 8 && w[7].kind == GSCAN_ATTRIBUTE_BUCKET_CHANNELS then
        var channels := ReadWords(m, Inside(m, w[7]));
        if v[6] == |channels| then Some(Bucket(v[0], v[1], v[2], v[3], v[4], v[5], channels)) else None
      else None
  }

  function ReadBuckets(m: Memory, w: seq<Located>): Option<seq<Bucket>> {
    if w == [] then Some([])
    else
      match ReadBucket(m, w[0])
      case None => None
      case Some(b) =>
        match ReadBuckets(m, w[1..])
        case None => None
        case Some(rest) => Some([b] + rest)
  }

  function ReadData(m: Memory, a: Located): Option<Params> {
    var w := Inside(m, a);
    if |w| < 2 || w[0].kind != GSCAN_ATTRIBUTE_BASE_PERIOD || w[1].kind != GSCAN_ATTRIBUTE_NUM_BUCKETS then None
    else
      match ReadBuckets(m, w[2..])
      case None => None
      case Some(buckets) =>
        if Signed(Word32(m, w[1].data)) == |buckets|
        then Some(Params(Signed(Word32(m, w[0].data)), buckets)) else None
  }

  function ReadVendorData(m: Memory, w: seq<Located>): Option<Params> {
    if w == [] then None
    else if w[0].kind == NL80211_ATTR_VENDOR_DATA then ReadData(m, w[0])
    else ReadVendorData(m, w[1..])
  }

  /** Takes a message apart by walking over it, and over every nest in it, in order. */
  function ReadMessage(m: Memory, pos: int, len: nat): Option<Params> {
    ReadVendorData(m, Walk(m, pos, len))
  }

  // ---------------------------------------------------------------- the round trip

  lemma {:induction false} PartIsNoLonger(s: seq<Attr>, i: nat)
    requires i < |s|
    ensures |Encode(s[i])| <= |EncodeAll(s)|
  {
    if i == 0 {
    } else {
      PartIsNoLonger(s[1..], i - 1);
    }
  }

  lemma ShortIsFit(s: seq<Attr>)
    requires |EncodeAll(s)| < 0x1_0000
    ensures AllFit(s)
  {
    forall i | 0 <= i < |s| ensures Fits(s[i]) {
      PartIsNoLonger(s, i);
    }
  }

  /** What is found in a nest is what was put into it. */
  lemma NestOpens(m: Memory, l: Located, kind: u16, inner: seq<Attr>)
    requires Shown(m, l, Nest(kind, inner)) && |EncodeAll(inner)| < 0x1_0000
    ensures AllShown(m, Inside(m, l), inner)
  {
    ShortIsFit(inner);
    WalkFindsEncoded(m, l.data, inner);
  }

  lemma WordReads(m: Memory, l: Located, kind: u16, v: i32)
    requires Shown(m, l, Int(kind, v))
    ensures Signed(Word32(m, l.data)) == v
  {
    HoldsWord32(m, l.data, Unsigned(v));
  }

  lemma {:induction false} ChannelsRead(m: Memory, w: seq<Located>, c: seq<i32>, s: seq<Attr>)
    requires |s| == |c| && AllShown(m, w, s) && forall j :: 0 <= j < |c| ==> s[j] == Int(s[j].kind, c[j])
    ensures ReadWords(m, w) == c
  {
    if c == [] {
    } else {
      assert Shown(m, w[0], s[0]);
      WordReads(m, w[0], s[0].kind, c[0]);
      forall j | 0 <= j < |c[1..]| ensures Shown(m, w[1..][j], s[1..][j]) {
        assert Shown(m, w[j + 1], s[j + 1]);
      }
      ChannelsRead(m, w[1..], c[1..], s[1..]);
      assert c == [c[0]] + c[1..];
    }
  }

  lemma FieldsRead(m: Memory, w: seq<Located>, b: Bucket)
    requires |b.channels| < 0x8000_0000 && AllShown(m, w, Fields(b))
    ensures ReadWords(m, w)
         == [b.bucket, b.period, b.band, b.stepCount, b.maxPeriod, b.reportEvents, |b.channels|]
    ensures Kinds(w) == FIELD_KINDS
  {
    var v: seq<i32> := [b.bucket, b.period, b.band, b.stepCount, b.maxPeriod, b.reportEvents, |b.channels|];
    forall k | 0 <= k < 7 ensures ReadWords(m, w)[k] == v[k] && Kinds(w)[k] == FIELD_KINDS[k] {
      KindAt(w, k);
      assert Shown(m, w[k], Fields(b)[k]);
      WordReads(m, w[k], FIELD_KINDS[k], v[k]);
    }
  }

  lemma BodyFields(m: Memory, w: seq<Located>, b: Bucket)
    requires |b.channels| < 0x8000_0000 && AllShown(m, w, Body(b))
    ensures ReadWords(m, w[..7])
         == [b.bucket, b.period, b.band, b.stepCount, b.maxPeriod, b.reportEvents, |b.channels|]
    ensures Kinds(w[..7]) == FIELD_KINDS
  {
    forall k | 0 <= k < 7 ensures Shown(m, w[..7][k], Fields(b)[k]) {
      assert Shown(m, w[k], Body(b)[k]);
    }
    FieldsRead(m, w[..7], b);
  }

  lemma BodyChannels(m: Memory, w: seq<Located>, b: Bucket)
    requires 0 < |b.channels| < 0x8000_0000 && AllShown(m, w, Body(b)) && |EncodeAll(Body(b))| < 0x1_0000
    ensures w[7].kind == GSCAN_ATTRIBUTE_BUCKET_CHANNELS && ReadWords(m, Inside(m, w[7])) == b.channels
  {
    var inner := Channels(b.channels, |b.channels|);
    assert Body(b)[7] == Nest(GSCAN_ATTRIBUTE_BUCKET_CHANNELS, inner);
    assert Shown(m, w[7], Body(b)[7]);
    PartIsNoLonger(Body(b), 7);
    NestOpens(m, w[7], GSCAN_ATTRIBUTE_BUCKET_CHANNELS, inner);
    forall j | 0 <= j < |inner| ensures inner[j] == Int(inner[j].kind, b.channels[j]) {
      ChannelAt(b.channels, |b.channels|, j);
    }
    ChannelsRead(m, Inside(m, w[7]), b.channels, inner);
  }

  lemma FieldsMakeBucket(m: Memory, l: Located, b: Bucket)
    requires var w := Inside(m, l);
             && |b.channels| < 0x8000_0000
             && |w| == (if b.channels == [] then 7 else 8)
             && Kinds(w[..7]) == FIELD_KINDS
             && ReadWords(m, w[..7])
                == [b.bucket, b.period, b.band, b.stepCount, b.maxPeriod, b.reportEvents, |b.channels|]
             && (b.channels != [] ==>
                   w[7].kind == GSCAN_ATTRIBUTE_BUCKET_CHANNELS && ReadWords(m, Inside(m, w[7])) == b.channels)
    ensures ReadBucket(m, l) == Some(b)
  {}

  lemma BucketRead(m: Memory, l: Located, kind: u16, b: Bucket)
    requires |b.channels| < 0x8000_0000
    requires Shown(m, l, Nest(kind, Body(b))) && |EncodeAll(Body(b))| < 0x1_0000
    ensures ReadBucket(m, l) == Some(b)
  {
    var w := Inside(m, l);
    NestOpens(m, l, kind, Body(b));
    BodyFields(m, w, b);
    if b.channels != [] {
      BodyChannels(m, w, b);
    }
    FieldsMakeBucket(m, l, b);
  }

  lemma ReadsOneMore(m: Memory, w: seq<Located>, b: Bucket, rest: seq<Bucket>)
    requires w != [] && ReadBucket(m, w[0]) == Some(b) && ReadBuckets(m, w[1..]) == Some(rest)
    ensures ReadBuckets(m, w) == Some([b] + rest)
  {}

  lemma {:induction false} BucketsRead(m: Memory, w: seq<Located>, b: seq<Bucket>)
    requires |w| == |b| && forall i :: 0 <= i < |b| ==> ReadBucket(m, w[i]) == Some(b[i])
    ensures ReadBuckets(m, w) == Some(b)
  {
    if w == [] {
    } else {
      forall i | 0 <= i < |b[1..]| ensures ReadBucket(m, w[1..][i]) == Some(b[1..][i]) {
        assert ReadBucket(m, w[i + 1]) == Some(b[i + 1]);
      }
      BucketsRead(m, w[1..], b[1..]);
      ReadsOneMore(m, w, b[0], b[1..]);
      assert b == [b[0]] + b[1..];
    }
  }

  lemma DataRead(m: Memory, l: Located, p: Params)
    requires Countable(p)
    requires Shown(m, l, Nest(NL80211_ATTR_VENDOR_DATA, Data(p))) && |EncodeAll(Data(p))| < 0x1_0000
    ensures ReadData(m, l) == Some(p)
  {
    var w := Inside(m, l);
    var s := Data(p);
    NestOpens(m, l, NL80211_ATTR_VENDOR_DATA, s);
    assert Shown(m, w[0], s[0]) && Shown(m, w[1], s[1]);
    WordReads(m, w[0], GSCAN_ATTRIBUTE_BASE_PERIOD, p.basePeriod);
    WordReads(m, w[1], GSCAN_ATTRIBUTE_NUM_BUCKETS, |p.buckets|);
    forall i | 0 <= i < |p.buckets| ensures ReadBucket(m, w[2..][i]) == Some(p.buckets[i]) {
      assert Shown(m, w[i + 2], s[i + 2]);
      BucketAt(p, |p.buckets|, i);
      PartIsNoLonger(s, i + 2);
      BucketRead(m, w[i + 2], Index(i), p.buckets[i]);
    }
    BucketsRead(m, w[2..], p.buckets);
  }

  lemma {:induction false} ReadsLast(m: Memory, w: seq<Located>, n: nat)
    requires n < |w| && w[n].kind == NL80211_ATTR_VENDOR_DATA
    requires forall i :: 0 <= i < n ==> w[i].kind != NL80211_ATTR_VENDOR_DATA
    ensures ReadVendorData(m, w) == ReadData(m, w[n])
  {
    if n == 0 {
    } else {
      ReadsLast(m, w[1..], n - 1);
    }
  }

  /** Walking over the bytes of a request that fits its message gives back the parameters: base period, number of
      buckets, and of every bucket its fields and its channels, in order. */
  lemma SetupRoundTrip(m: Memory, pos: int, p: Params, iface: i32)
    requires Countable(p)
    requires Holds(m, pos, EncodeAll(Message(p, iface))) && |EncodeAll(Message(p, iface))| < 0x1_0000
    ensures ReadMessage(m, pos, |EncodeAll(Message(p, iface))|) == Some(p)
  {
    var s := Message(p, iface);
    var w := Walk(m, pos, |EncodeAll(s)|);
    var n := |Vendor(GSCAN_SUBCMD_SET_CONFIG, iface)|;
    ShortIsFit(s);
    WalkFindsEncoded(m, pos, s);
    DataIsLast(m, w, p, iface);
    PartIsNoLonger(s, n);
    DataRead(m, w[n], p);
    ReadsLast(m, w, n);
  }

  lemma DataIsLast(m: Memory, w: seq<Located>, p: Params, iface: i32)
    requires Countable(p) && AllShown(m, w, Message(p, iface))
    ensures var n := |Vendor(GSCAN_SUBCMD_SET_CONFIG, iface)|;
            && |w| == |Message(p, iface)| == n + 1
            && Message(p, iface)[n] == Nest(NL80211_ATTR_VENDOR_DATA, Data(p))
            && Shown(m, w[n], Nest(NL80211_ATTR_VENDOR_DATA, Data(p)))
            && forall i :: 0 <= i < n ==> w[i].kind != NL80211_ATTR_VENDOR_DATA
  {
    var s := Message(p, iface);
    var n := |Vendor(GSCAN_SUBCMD_SET_CONFIG, iface)|;
    assert Shown(m, w[n], s[n]);
    forall i | 0 <= i < n ensures w[i].kind != NL80211_ATTR_VENDOR_DATA {
      assert Shown(m, w[i], s[i]);
    }
  }

  /** A reader that goes by the types of the attributes alone can tell those of the request apart only if there are
      at most ten buckets: the nests of the eleventh and twelfth have the types of the bucket count and the base
      period. */
  lemma TypesAreUnique(p: Params)
    requires Countable(p)
    ensures (forall i, j :: 0 <= i < j < |Data(p)| ==> Data(p)[i].kind != Data(p)[j].kind) <==> |p.buckets| <= 10
  {
    var s := Data(p);
    if |p.buckets| > 10 {
      TypeAt(p, 1);
      TypeAt(p, 12);
    } else {
      forall i, j | 0 <= i < j < |s| ensures s[i].kind != s[j].kind {
        TypeAt(p, i);
        TypeAt(p, j);
      }
    }
  }

  /** With eleven buckets the bucket count and the last bucket have the same type. */
  lemma ElevenBucketsClash(b: Bucket)
    requires |b.channels| < 0x8000_0000
    ensures var p := Params(0, seq(11, _ => b));
            && Countable(p) && |Data(p)| == 13
            && Data(p)[1].kind == Data(p)[12].kind == GSCAN_ATTRIBUTE_NUM_BUCKETS
  {
    var p := Params(0, seq(11, _ => b));
    assert forall i :: 0 <= i < 11 ==> p.buckets[i] == b;
    TypeAt(p, 1);
    TypeAt(p, 12);
  }

  lemma {:induction false} BucketTypeAt(p: Params, n: nat, i: nat)
    requires Countable(p) && i < n <= |p.buckets|
    ensures Buckets(p, n)[i].kind == Index(i)
  {
    if i == n - 1 {
    } else {
      BucketTypeAt(p, n - 1, i);
    }
  }

  lemma DataAt(p: Params)
    requires Countable(p)
    ensures Data(p)[0].kind == GSCAN_ATTRIBUTE_BASE_PERIOD && Data(p)[1].kind == GSCAN_ATTRIBUTE_NUM_BUCKETS
    ensures Data(p)[2..] == Buckets(p, |p.buckets|)
  {}

  lemma TypeAt(p: Params, i: nat)
    requires Countable(p) && i < |p.buckets| + 2 && i < 0x1_0002
    ensures Data(p)[i].kind == if i == 0 then GSCAN_ATTRIBUTE_BASE_PERIOD
                               else if i == 1 then GSCAN_ATTRIBUTE_NUM_BUCKETS
                               else i - 2
  {
    DataAt(p);
    if i >= 2 {
      BucketTypeAt(p, |p.buckets|, i - 2);
      assert Data(p)[i] == Data(p)[2..][i - 2];
    }
  }

  // ---------------------------------------------------------------- building the request

  lemma {:induction false} MoreBucketsAreLonger(p: Params, k: nat, n: nat)
    requires Countable(p) && k <= n <= |p.buckets|
    ensures |EncodeAll(Buckets(p, k))| <= |EncodeAll(Buckets(p, n))|
  {
    if k == n {
    } else {
      MoreBucketsAreLonger(p, k, n - 1);
      EncodeAllAppend(Buckets(p, n - 1), [Nest(Index(n - 1), Body(p.buckets[n - 1]))]);
    }
  }

  lemma {:induction false} WordsLength(s: seq<Attr>)
    requires forall i :: 0 <= i < |s| ==> s[i].Word?
    ensures |EncodeAll(s)| == 8 * |s|
  {
    if s == [] {
    } else {
      WordsLength(s[1..]);
    }
  }

  lemma ChannelsLength(c: seq<i32>, n: nat)
    requires n <= |c|
    ensures |EncodeAll(Channels(c, n))| == 8 * n
  {
    forall j | 0 <= j < n ensures Channels(c, n)[j].Word? {
      ChannelAt(c, n, j);
    }
    WordsLength(Channels(c, n));
  }

  /** One more attribute after those already encoded. */
  lemma EncodeNext(base: seq<byte>, s: seq<Attr>, a: Attr)
    ensures base + EncodeAll(s) + Encode(a) == base + EncodeAll(s + [a])
    ensures |EncodeAll(s + [a])| == |EncodeAll(s)| + |Encode(a)|
  {
    EncodeAllAppend(s, [a]);
    EncodeOne(a);
    Assoc(base, EncodeAll(s), Encode(a));
  }

  /** Puts a word after others. */
  method PutNext(r: WifiRequest, kind: u16, v: i32, ghost base: seq<byte>, ghost s: seq<Attr>) returns (ok: bool)
    requires r.Valid() && r.Contents() == base + EncodeAll(s)
    modifies r`len, r.buf
    ensures r.Valid()
    ensures ok <==> |old(r.Contents())| + 8 <= r.buf.Length
    ensures ok ==> r.Contents() == base + EncodeAll(s + [Int(kind, v)]) && r.len == old(r.len) + 8
  {
    EncodeNext(base, s, Int(kind, v));
    ok := r.PutU32(kind, Unsigned(v));
  }

  lemma Prefixes(f: seq<Attr>, k: nat)
    requires k < |f|
    ensures f[..k] + [f[k]] == f[..k + 1] && f[..|f|] == f
  {}

  /** Puts the k-th of the fields. */
  method PutField(r: WifiRequest, kind: u16, v: i32, ghost base: seq<byte>, ghost f: seq<Attr>, ghost k: nat)
    returns (ok: bool)
    requires k < |f| && f[k] == Int(kind, v)
    requires r.Valid() && r.Contents() == base + EncodeAll(f[..k]) && r.len == |base| + 8 * k
    modifies r`len, r.buf
    ensures r.Valid()
    ensures ok <==> |base| + 8 * (k + 1) <= r.buf.Length
    ensures ok ==> r.Contents() == base + EncodeAll(f[..k + 1]) && r.len == |base| + 8 * (k + 1)
  {
    Prefixes(f, k);
    ok := PutNext(r, kind, v, base, f[..k]);
  }

  /** The seven fields of a bucket, in turn. */
  method PutSeven(r: WifiRequest, b: Bucket, ghost base: seq<byte>, ghost f: seq<Attr>) returns (ok: bool)
    requires r.Valid() && r.Contents() == base && |f| == 7 && |b.channels| < 0x8000_0000
    requires f[0] == Int(GSCAN_ATTRIBUTE_BUCKET_ID, b.bucket) && f[1] == Int(GSCAN_ATTRIBUTE_BUCKET_PERIOD, b.period)
    requires f[2] == Int(GSCAN_ATTRIBUTE_BUCKETS_BAND, b.band)
    requires f[3] == Int(GSCAN_ATTRIBUTE_BUCKET_STEP_COUNT, b.stepCount)
    requires f[4] == Int(GSCAN_ATTRIBUTE_BUCKET_MAX_PERIOD, b.maxPeriod)
    requires f[5] == Int(GSCAN_ATTRIBUTE_REPORT_EVENTS, b.reportEvents)
    requires f[6] == Int(GSCAN_ATTRIBUTE_BUCKET_NUM_CHANNELS, |b.channels|)
    modifies r`len, r.buf
    ensures r.Valid()
    ensures ok <==> |base| + 56 <= r.buf.Length
    ensures ok ==> r.Contents() == base + EncodeAll(f)
  {
    assert f[..0] == [] && base + EncodeAll([]) == base && f[..7] == f;
    ok := PutField(r, GSCAN_ATTRIBUTE_BUCKET_ID, b.bucket, base, f, 0);
    if !ok {
      return;
    }
    ok := PutField(r, GSCAN_ATTRIBUTE_BUCKET_PERIOD, b.period, base, f, 1);
    if !ok {
      return;
    }
    ok := PutField(r, GSCAN_ATTRIBUTE_BUCKETS_BAND, b.band, base, f, 2);
    if !ok {
      return;
    }
    ok := PutField(r, GSCAN_ATTRIBUTE_BUCKET_STEP_COUNT, b.stepCount, base, f, 3);
    if !ok {
      return;
    }
    ok := PutField(r, GSCAN_ATTRIBUTE_BUCKET_MAX_PERIOD, b.maxPeriod, base, f, 4);
    if !ok {
      return;
    }
    ok := PutField(r, GSCAN_ATTRIBUTE_REPORT_EVENTS, b.reportEvents, base, f, 5);
    if !ok {
      return;
    }
    ok := PutField(r, GSCAN_ATTRIBUTE_BUCKET_NUM_CHANNELS, |b.channels|, base, f, 6);
  }

  method PutFields(r: WifiRequest, b: Bucket) returns (ok: bool)
    requires r.Valid() && |b.channels| < 0x8000_0000
    modifies r`len, r.buf
    ensures r.Valid()
    ensures ok <==> |old(r.Contents())| + 56 <= r.buf.Length
    ensures ok ==> r.Contents() == old(r.Contents()) + EncodeAll(Fields(b))
  {
    ok := PutSeven(r, b, r.Contents(), Fields(b));
  }

  method PutChannels(r: WifiRequest, c: seq<i32>) returns (ok: bool)
    requires r.Valid()
    modifies r`len, r.buf
    ensures r.Valid()
    ensures ok <==> |old(r.Contents())| + 8 * |c| <= r.buf.Length
    ensures ok ==> r.Contents() == old(r.Contents()) + EncodeAll(Channels(c, |c|))
  {
    ghost var base := r.Contents();
    assert base + EncodeAll([]) == base;
    var j := 0;
    while j < |c|
      invariant 0 <= j <= |c| && r.Valid() && r.Contents() == base + EncodeAll(Channels(c, j))
    {
      ChannelsLength(c, j);
      ok := PutNext(r, Index(j), c[j], base, Channels(c, j));
      if !ok {
        return;
      }
      j := j + 1;
    }
    ChannelsLength(c, |c|);
    ok := true;
  }

  lemma NestLength(kind: u16, inner: seq<Attr>)
    ensures |Encode(Nest(kind, inner))| == NLA_HDRLEN + |EncodeAll(inner)|
  {
    NestEncoded(kind, inner);
  }

  lemma BodyOf(b: Bucket, base: seq<byte>)
    requires |b.channels| < 0x8000_0000
    ensures |EncodeAll(Fields(b))| == 56
    ensures b.channels == [] ==> Body(b) == Fields(b)
    ensures b.channels != [] ==>
              var nest := Nest(GSCAN_ATTRIBUTE_BUCKET_CHANNELS, Channels(b.channels, |b.channels|));
              && |EncodeAll(Body(b))| == |EncodeAll(Fields(b))| + NLA_HDRLEN + 8 * |b.channels|
              && base + EncodeAll(Fields(b)) + Encode(nest) == base + EncodeAll(Body(b))
  {
    WordsLength(Fields(b));
    if b.channels != [] {
      var inner := Channels(b.channels, |b.channels|);
      var nest := Nest(GSCAN_ATTRIBUTE_BUCKET_CHANNELS, inner);
      EncodeNext(base, Fields(b), nest);
      NestLength(GSCAN_ATTRIBUTE_BUCKET_CHANNELS, inner);
      ChannelsLength(b.channels, |b.channels|);
    }
  }

  method PutBody(r: WifiRequest, b: Bucket) returns (ok: bool)
    requires r.Valid() && |b.channels| < 0x8000_0000
    modifies r`len, r.buf
    ensures r.Valid()
    ensures ok <==> |old(r.Contents())| + |EncodeAll(Body(b))| <= r.buf.Length
    ensures ok ==> r.Contents() == old(r.Contents()) + EncodeAll(Body(b))
  {
    ghost var base := r.Contents();
    BodyOf(b, base);
    ok := PutFields(r, b);
    if ok && |b.channels| != 0 {
      ghost var before := r.Contents();
      var channels := r.AttrStart(GSCAN_ATTRIBUTE_BUCKET_CHANNELS);
      ok := PutChannels(r, b.channels);
      if ok {
        r.AttrEnd(channels.value, before, GSCAN_ATTRIBUTE_BUCKET_CHANNELS, Channels(b.channels, |b.channels|));
      }
    }
  }

  method PutBucket(r: WifiRequest, b: Bucket, i: nat) returns (ok: bool)
    requires r.Valid() && |b.channels| < 0x8000_0000
    modifies r`len, r.buf
    ensures r.Valid()
    ensures ok <==> |old(r.Contents())| + |Encode(Nest(Index(i), Body(b)))| <= r.buf.Length
    ensures ok ==> r.Contents() == old(r.Contents()) + Encode(Nest(Index(i), Body(b)))
  {
    ghost var base := r.Contents();
    NestLength(Index(i), Body(b));
    PartIsNoLonger(Body(b), 0);
    var bucket := r.AttrStart(Index(i));
    ok := PutBody(r, b);
    if ok {
      r.AttrEnd(bucket.value, base, Index(i), Body(b));
    }
  }

  /** WifiRequest::create for a vendor command. */
  method CreateVendor(r: WifiRequest, subcmd: u32, iface: i32) returns (ok: bool)
    requires r.Valid() && r.Contents() == []
    modifies r`len, r.buf
    ensures r.Valid()
    ensures ok <==> |EncodeAll(Vendor(subcmd, iface))| <= r.buf.Length
    ensures ok ==> r.Contents() == EncodeAll(Vendor(subcmd, iface))
  {
    VendorEncoded(subcmd, iface);
    ok := r.PutU32(NL80211_ATTR_VENDOR_ID, HandlerTables.GOOGLE_OUI);
    if !ok {
      return;
    }
    ok := r.PutU32(NL80211_ATTR_VENDOR_SUBCMD, subcmd);
    if !ok {
      return;
    }
    if iface != -1 {
      ok := r.PutU32(NL80211_ATTR_IFINDEX, Unsigned(iface));
    }
  }

  lemma VendorEncoded(subcmd: u32, iface: i32)
    ensures var id := Encode(Word(NL80211_ATTR_VENDOR_ID, HandlerTables.GOOGLE_OUI));
            var sub := Encode(Word(NL80211_ATTR_VENDOR_SUBCMD, subcmd));
            EncodeAll(Vendor(subcmd, iface)) ==
              if iface != -1 then [] + id + sub + Encode(Int(NL80211_ATTR_IFINDEX, iface)) else [] + id + sub
  {
    var id := Word(NL80211_ATTR_VENDOR_ID, HandlerTables.GOOGLE_OUI);
    var sub := Word(NL80211_ATTR_VENDOR_SUBCMD, subcmd);
    EncodeNext([], [], id);
    EncodeNext([], [id], sub);
    assert [] + [id] == [id] && [id] + [sub] == [id, sub];
    if iface != -1 {
      EncodeNext([], [id, sub], Int(NL80211_ATTR_IFINDEX, iface));
    }
    assert [] + EncodeAll(Vendor(subcmd, iface)) == EncodeAll(Vendor(subcmd, iface));
  }

  lemma OneMoreBucket(p: Params, i: nat)
    requires Countable(p) && i < |p.buckets|
    ensures Counts(p) + Buckets(p, i + 1) == Counts(p) + Buckets(p, i) + [Nest(Index(i), Body(p.buckets[i]))]
    ensures |EncodeAll(Counts(p) + Buckets(p, i + 1))| <= |EncodeAll(Data(p))|
  {
    EncodeAllAppend(Counts(p), Buckets(p, i + 1));
    EncodeAllAppend(Counts(p), Buckets(p, |p.buckets|));
    MoreBucketsAreLonger(p, i + 1, |p.buckets|);
  }

  lemma DataLength(p: Params)
    requires Countable(p)
    ensures |EncodeAll(Counts(p))| == 16 && |EncodeAll(Data(p))| == 16 + |EncodeAll(Buckets(p, |p.buckets|))|
  {
    WordsLength(Counts(p));
    EncodeAllAppend(Counts(p), Buckets(p, |p.buckets|));
  }

  method PutCounts(r: WifiRequest, p: Params) returns (ok: bool)
    requires r.Valid() && Countable(p)
    modifies r`len, r.buf
    ensures r.Valid()
    ensures ok <==> |old(r.Contents())| + 16 <= r.buf.Length
    ensures ok ==> r.Contents() == old(r.Contents()) + EncodeAll(Counts(p))
  {
    ghost var base := r.Contents();
    assert base + EncodeAll([]) == base;
    ok := PutNext(r, GSCAN_ATTRIBUTE_BASE_PERIOD, p.basePeriod, base, []);
    if !ok {
      return;
    }
    Prefixes(Counts(p), 0);
    ok := PutNext(r, GSCAN_ATTRIBUTE_NUM_BUCKETS, |p.buckets|, base, Counts(p)[..1]);
    Prefixes(Counts(p), 1);
  }

  method PutData(r: WifiRequest, p: Params) returns (ok: bool)
    requires r.Valid() && Countable(p)
    modifies r`len, r.buf
    ensures r.Valid()
    ensures ok <==> |old(r.Contents())| + |EncodeAll(Data(p))| <= r.buf.Length
    ensures ok ==> r.Contents() == old(r.Contents()) + EncodeAll(Data(p))
  {
    ghost var base := r.Contents();
    DataLength(p);
    ok := PutCounts(r, p);
    if !ok {
      return;
    }
    assert Counts(p) + Buckets(p, 0) == Counts(p);
    var i := 0;
    while i < |p.buckets|
      invariant 0 <= i <= |p.buckets| && r.Valid()
      invariant r.Contents() == base + EncodeAll(Counts(p) + Buckets(p, i))
    {
      OneMoreBucket(p, i);
      EncodeNext(base, Counts(p) + Buckets(p, i), Nest(Index(i), Body(p.buckets[i])));
      ok := PutBucket(r, p.buckets[i], i);
      if !ok {
        return;
      }
      i := i + 1;
    }
    ok := true;
  }

  /** ScanCommand::createSetupRequest: succeeds exactly when the whole request fits the message, and then the
      message holds a request that reads back as these parameters. */
  method CreateSetupRequest(r: WifiRequest, p: Params, iface: i32) returns (ok: bool)
    requires r.Valid() && r.Contents() == [] && Countable(p)
    modifies r`len, r.buf
    ensures r.Valid()
    ensures ok <==> |EncodeAll(Message(p, iface))| <= r.buf.Length
    ensures ok ==> r.Contents() == EncodeAll(Message(p, iface))
    ensures ok ==> ReadMessage(r.Contents(), 0, |r.Contents()|) == Some(p)
  {
    MessageOf(p, iface);
    DataLength(p);
    ok := CreateVendor(r, GSCAN_SUBCMD_SET_CONFIG, iface);
    if !ok {
      return;
    }
    var data := r.AttrStart(NL80211_ATTR_VENDOR_DATA);
    ok := PutData(r, p);
    if !ok {
      return;
    }
    r.AttrEnd(data.value, EncodeAll(Vendor(GSCAN_SUBCMD_SET_CONFIG, iface)), NL80211_ATTR_VENDOR_DATA, Data(p));
    HoldsItself(r.Contents());
    SetupRoundTrip(r.Contents(), 0, p, iface);
  }

  lemma HoldsItself(s: seq<byte>)
    ensures Holds(s, 0, s)
  {}

  lemma MessageOf(p: Params, iface: i32)
    requires Countable(p)
    ensures var head := EncodeAll(Vendor(GSCAN_SUBCMD_SET_CONFIG, iface));
            && EncodeAll(Message(p, iface)) == head + Encode(Nest(NL80211_ATTR_VENDOR_DATA, Data(p)))
            && |EncodeAll(Message(p, iface))| == |head| + NLA_HDRLEN + |EncodeAll(Data(p))|
  {
    var head := Vendor(GSCAN_SUBCMD_SET_CONFIG, iface);
    NestLength(NL80211_ATTR_VENDOR_DATA, Data(p));
    EncodeAllAppend(head, [Nest(NL80211_ATTR_VENDOR_DATA, Data(p))]);
    EncodeOne(Nest(NL80211_ATTR_VENDOR_DATA, Data(p)));
  }
}
