/** Starting a command and cancelling it, and what that leaves in the two tables of the HAL. */
module StartCancel {
  import opened Bytes
  import opened HandlerTables
  import opened Sequences
  import L = CommandLifecycle

  /** The families of commands that stay behind to listen to events. */
  datatype Family = Scan | FullScan | Hotlist | Rssi | Log | Alert | Rtt

  function KindOf(c: Family): L.Kind {
    match c
    case Scan => L.SCAN
    case FullScan => L.FULL_SCAN
    case Hotlist => L.HOTLIST
    case Rssi => L.RSSI
    case Log => L.LOG
    case Alert => L.ALERT
    case Rtt => L.RTT
  }

  class WifiCommand {
    const family: Family
    const id: int
    var refs: int
    var freed: nat

    constructor (family: Family, id: int)
      ensures this.family == family && this.id == id && refs == 1 && freed == 0
    {
      this.family, this.id, this.refs, this.freed := family, id, 1, 0;
    }

    method ReleaseRef()
      requires refs > 0 && freed == 0
      modifies this
      ensures refs == old(refs) - 1 && freed == L.Bit(refs == 0)
    {
      refs := refs - 1;
      if refs == 0 {
        freed := freed + 1;
      }
    }
  }

  type Cb = CbInfo<WifiCommand?>
  type Cmd = CmdInfo<WifiCommand?>

  const EVENT_HANDLER := 0

  function Entry(k: Key, c: WifiCommand): Cb { CbInfo(k, EVENT_HANDLER, c) }

  // ---------------------------------------------------------------- several handlers

  function RegisterAll(s: seq<Cb>, capacity: nat, keys: seq<Key>, c: WifiCommand): seq<Cb>
    decreases |keys|
  {
    if keys == [] then s else RegisterAll(Append(s, capacity, Entry(keys[0], c)), capacity, keys[1..], c)
  }

  function UnregisterAll(s: seq<Cb>, keys: seq<Key>): seq<Cb>
    decreases |keys|
  {
    if keys == [] then s else UnregisterAll(RemoveKey(s, keys[0]), keys[1..])
  }

  /** No registration has one of the keys. */
  predicate Unused(s: seq<Cb>, keys: seq<Key>) {
    forall e :: e in s ==> e.key !in keys
  }

  function Entries(keys: seq<Key>, c: WifiCommand): (s: seq<Cb>)
    ensures |s| == |keys| && forall i :: 0 <= i < |s| ==> s[i] == Entry(keys[i], c)
  {
    if keys == [] then [] else [Entry(keys[0], c)] + Entries(keys[1..], c)
  }

  /** Registering appends an entry per key, for the first keys that find room. */
  lemma {:induction false} RegisterAllAppends(s: seq<Cb>, capacity: nat, keys: seq<Key>, c: WifiCommand)
    requires |s| <= capacity
    ensures RegisterAll(s, capacity, keys, c) == s + Entries(keys[..Min(|keys|, capacity - |s|)], c)
    decreases |keys|
  {
    if keys == [] {
      assert s + [] == s;
    } else {
      RegisterAllAppends(Append(s, capacity, Entry(keys[0], c)), capacity, keys[1..], c);
      if |s| < capacity {
        OneMore(s, keys, Min(|keys|, capacity - |s|), c);
      }
    }
  }

  lemma OneMore(s: seq<Cb>, keys: seq<Key>, n: nat, c: WifiCommand)
    requires 0 < n <= |keys|
    ensures (s + [Entry(keys[0], c)]) + Entries(keys[1..][..n - 1], c) == s + Entries(keys[..n], c)
  {
    assert keys[..n][1..] == keys[1..][..n - 1];
  }

  lemma {:induction false} RemoveFromTail(s: seq<Cb>, t: seq<Cb>, k: Key)
    requires forall e :: e in s ==> e.key != k
    ensures RemoveKey(s + t, k) == s + RemoveKey(t, k)
  {
    if s == [] {
      assert s + t == t && s + RemoveKey(t, k) == RemoveKey(t, k);
    } else {
      assert (s + t)[1..] == s[1..] + t;
      RemoveFromTail(s[1..], t, k);
      assert [s[0]] + (s[1..] + RemoveKey(t, k)) == s + RemoveKey(t, k);
    }
  }

  lemma {:induction false} UnregisterFromTail(s: seq<Cb>, t: seq<Cb>, keys: seq<Key>)
    requires Unused(s, keys)
    ensures UnregisterAll(s + t, keys) == s + UnregisterAll(t, keys)
    decreases |keys|
  {
    if keys == [] {
    } else {
      RemoveFromTail(s, t, keys[0]);
      UnregisterFromTail(s, RemoveKey(t, keys[0]), keys[1..]);
    }
  }

  predicate Distinct(keys: seq<Key>) {
    forall i, j :: 0 <= i < j < |keys| ==> keys[i] != keys[j]
  }

  /** Each key has at most one registration. */
  predicate OwnKeys(s: seq<Cb>) {
    forall i, j :: 0 <= i < j < |s| ==> s[i].key != s[j].key
  }

  /** The entries that are for none of the keys. */
  function Others(s: seq<Cb>, keys: seq<Key>): seq<Cb> {
    if s == [] then []
    else if s[0].key in keys then Others(s[1..], keys)
    else [s[0]] + Others(s[1..], keys)
  }

  lemma {:induction false} OthersMembers(s: seq<Cb>, keys: seq<Key>)
    ensures forall e :: e in Others(s, keys) <==> e in s && e.key !in keys
    ensures Unused(s, keys) <==> Others(s, keys) == s
  {
    if s == [] {
    } else {
      OthersMembers(s[1..], keys);
      assert s[0] in s;
    }
  }

  lemma {:induction false} RemoveThenOthers(s: seq<Cb>, keys: seq<Key>)
    requires keys != [] && OwnKeys(s)
    ensures OwnKeys(RemoveKey(s, keys[0]))
    ensures Others(RemoveKey(s, keys[0]), keys[1..]) == Others(s, keys)
  {
    if s == [] {
    } else {
      RemoveThenOthers(s[1..], keys);
      RemoveKeyKeeps(s[1..], keys[0]);
      if s[0].key == keys[0] {
        OthersAgree(s[1..], keys);
      } else {
        var rest := RemoveKey(s[1..], keys[0]);
        assert ([s[0]] + rest)[1..] == rest;
        forall j | 0 <= j < |rest| ensures rest[j].key != s[0].key {
          assert rest[j] in s[1..];
        }
      }
    }
  }

  lemma {:induction false} OthersAgree(s: seq<Cb>, keys: seq<Key>)
    requires keys != [] && forall e :: e in s ==> e.key != keys[0]
    ensures Others(s, keys[1..]) == Others(s, keys)
  {
    if s == [] {
    } else {
      assert s[0] in s;
      OthersAgree(s[1..], keys);
    }
  }

  /** When no two registrations share a key, unregistering keys leaves the entries for all others, in order. */
  lemma {:induction false} UnregisterAllLeavesOthers(s: seq<Cb>, keys: seq<Key>)
    requires OwnKeys(s)
    ensures UnregisterAll(s, keys) == Others(s, keys)
    decreases |keys|
  {
    if keys == [] {
      OthersMembers(s, keys);
    } else {
      RemoveThenOthers(s, keys);
      UnregisterAllLeavesOthers(RemoveKey(s, keys[0]), keys[1..]);
    }
  }

  // ---------------------------------------------------------------- a rollback

  lemma {:induction false} QueueUnused(s: seq<Cb>, k: Key)
    ensures Queue(s, k) == [] <==> forall e :: e in s ==> e.key != k
  {
    if s == [] {
    } else {
      QueueUnused(s[1..], k);
      assert s[0] in s;
    }
  }

  lemma {:induction false} QueueUnregisterAll(s: seq<Cb>, keys: seq<Key>, k: Key)
    requires Distinct(keys)
    ensures Queue(UnregisterAll(s, keys), k)
         == if k in keys && Queue(s, k) != [] then Queue(s, k)[1..] else Queue(s, k)
    decreases |keys|
  {
    if keys == [] {
    } else {
      QueueRemove(s, keys[0], k);
      QueueUnregisterAll(RemoveKey(s, keys[0]), keys[1..], k);
      assert k in keys <==> k == keys[0] || k in keys[1..];
    }
  }

  /** The queue of a key as a start leaves it: with the command at its end, if there was room. */
  lemma {:induction false} QueueRegisterAll(s: seq<Cb>, capacity: nat, keys: seq<Key>, c: WifiCommand, k: Key)
    requires Distinct(keys)
    ensures Queue(RegisterAll(s, capacity, keys, c), k) == Queue(s, k)
         || (k in keys && Queue(RegisterAll(s, capacity, keys, c), k) == Queue(s, k) + [Entry(k, c)])
    decreases |keys|
  {
    if keys == [] {
    } else {
      QueueAppend(s, Entry(keys[0], c), k);
      QueueRegisterAll(Append(s, capacity, Entry(keys[0], c)), capacity, keys[1..], c, k);
    }
  }

  /** Unregistering without having registered leaves the table as it was exactly when nobody listens to the keys. */
  lemma UnregisterAllIsIdle(s: seq<Cb>, keys: seq<Key>)
    requires Distinct(keys)
    ensures UnregisterAll(s, keys) == s <==> Unused(s, keys)
  {
    if Unused(s, keys) {
      UnregisterFromTail(s, [], keys);
      NothingToUnregister(keys);
      assert s + [] == s;
    } else {
      var e :| e in s && e.key in keys;
      QueueUnused(s, e.key);
      QueueUnregisterAll(s, keys, e.key);
    }
  }

  lemma {:induction false} NothingToUnregister(keys: seq<Key>)
    ensures UnregisterAll([], keys) == []
  {
    if keys == [] {
    } else {
      NothingToUnregister(keys[1..]);
    }
  }

  /** A start that registers its handlers and then removes them leaves the table as it was, even when it was too full
      for some of them. */
  lemma RollbackLeavesNothing(s: seq<Cb>, capacity: nat, keys: seq<Key>, removal: seq<Key>, c: WifiCommand)
    requires |s| <= capacity && Distinct(keys) && multiset(keys) == multiset(removal) && Unused(s, removal)
    ensures UnregisterAll(RegisterAll(s, capacity, keys, c), removal) == s
  {
    var n := Min(|keys|, capacity - |s|);
    var added := Entries(keys[..n], c);
    RegisterAllAppends(s, capacity, keys, c);
    UnregisterFromTail(s, added, removal);
    UnregisterAllLeavesOthers(added, removal);
    EntriesAreFor(keys, n, removal, c);
    NoOthers(added, removal);
    assert s + [] == s;
  }

  lemma {:induction false} NoOthers(s: seq<Cb>, keys: seq<Key>)
    requires forall e :: e in s ==> e.key in keys
    ensures Others(s, keys) == []
  {
    if s == [] {
    } else {
      assert s[0] in s;
      NoOthers(s[1..], keys);
    }
  }

  lemma EntriesAreFor(keys: seq<Key>, n: nat, removal: seq<Key>, c: WifiCommand)
    requires n <= |keys| && multiset(keys) == multiset(removal)
    ensures forall e :: e in Entries(keys[..n], c) ==> e.key in removal
  {
    forall e | e in Entries(keys[..n], c) ensures e.key in removal {
      var i :| 0 <= i < n && e == Entries(keys[..n], c)[i];
      assert keys[i] in multiset(keys);
    }
  }

  /** And it does so exactly when nobody else listened to those keys. */
  lemma RollbackRestores(s: seq<Cb>, capacity: nat, keys: seq<Key>, removal: seq<Key>, c: WifiCommand)
    requires |s| <= capacity && Distinct(keys) && Distinct(removal) && multiset(keys) == multiset(removal)
    requires forall e :: e in s ==> e.arg != c
    ensures UnregisterAll(RegisterAll(s, capacity, keys, c), removal) == s <==> Unused(s, removal)
  {
    if Unused(s, removal) {
      RollbackLeavesNothing(s, capacity, keys, removal, c);
    } else {
      SharedKeyBreaksRollback(s, capacity, keys, removal, c);
    }
  }

  lemma SharedKeyBreaksRollback(s: seq<Cb>, capacity: nat, keys: seq<Key>, removal: seq<Key>, c: WifiCommand)
    requires Distinct(keys) && Distinct(removal) && !Unused(s, removal)
    requires forall e :: e in s ==> e.arg != c
    ensures UnregisterAll(RegisterAll(s, capacity, keys, c), removal) != s
  {
    var e :| e in s && e.key in removal;
    var k := e.key;
    var t := RegisterAll(s, capacity, keys, c);
    QueueUnused(s, k);
    QueueRegisterAll(s, capacity, keys, c, k);
    QueueUnregisterAll(t, removal, k);
    L.QueueMembers(s, k);
    var q := Queue(s, k);
    assert q[|q| - 1].arg != c;
    if Queue(t, k) == q + [Entry(k, c)] {
      assert Queue(t, k)[1..][|q| - 1] == Entry(k, c);
    }
  }

  /** Two hotlists: a second start that fails early, or is rolled back, takes away the callback of the first. */
  lemma SecondHotlistRemovesFirst(other: WifiCommand, c: WifiCommand)
    requires other != c
    ensures var s: seq<Cb> := [Entry(L.Vendor(L.GSCAN_EVENT_HOTLIST_RESULTS_FOUND), other)];
            && UnregisterAll(s, L.HOTLIST.removal) != s
            && UnregisterAll(RegisterAll(s, 64, L.HOTLIST.keys, c), L.HOTLIST.removal) != s
  {
    var k := L.Vendor(L.GSCAN_EVENT_HOTLIST_RESULTS_FOUND);
    var s: seq<Cb> := [Entry(k, other)];
    assert s[0] in s && L.HOTLIST.removal[0] == k;
    UnregisterAllIsIdle(s, L.HOTLIST.removal);
    RollbackRestores(s, 64, L.HOTLIST.keys, L.HOTLIST.removal, c);
  }

  // ---------------------------------------------------------------- the command table

  /** Taking a command out by an id that only it has removes its entry and no other, and keeps their order. */
  lemma {:induction false} RemoveIdRemovesIt(s: seq<Cmd>, t: seq<Cmd>, e: Cmd)
    requires forall f :: f in s ==> f.id != e.id
    ensures RemoveId(s + [e] + t, e.id) == s + t && FindId(s + [e] + t, e.id) == Some(e.cmd)
  {
    if s == [] {
      assert s + [e] + t == [e] + t && ([e] + t)[1..] == t && s + t == t;
    } else {
      assert s[0] in s;
      assert (s + [e] + t)[1..] == s[1..] + [e] + t;
      RemoveIdRemovesIt(s[1..], t, e);
      assert [s[0]] + (s[1..] + t) == s + t;
    }
  }

  /** A cancel right after a start undoes it in both tables, even if there was no room for some of its handlers. */
  lemma CancelUndoesStart(
      s: seq<Cb>, capacity: nat, commands: seq<Cmd>, c: WifiCommand, keys: seq<Key>, removal: seq<Key>)
    requires |s| <= capacity && Unused(s, removal) && Distinct(keys) && multiset(keys) == multiset(removal)
    requires forall e :: e in commands ==> e.id != c.id
    ensures UnregisterAll(RegisterAll(s, capacity, keys, c), removal) == s
    ensures RemoveId(commands + [CmdInfo(c.id, c)], c.id) == commands
  {
    RollbackLeavesNothing(s, capacity, keys, removal, c);
    var e: Cmd := CmdInfo(c.id, c);
    RemoveIdRemovesIt(commands, [], e);
    assert commands + [e] + [] == commands + [e];
    assert commands + [] == commands;
  }

  // ---------------------------------------------------------------- start and cancel in place

  /** What creating a request, or sending one and waiting for the answer, returns: 0 or an error below it. */
  type Code = c: int | c <= 0

  /** What the driver and the memory bring in one start. */
  datatype Outcome = Outcome(
    setup: Code, setupReply: Code, config: Code, configReply: Code, start: Code, startReply: Code)

  /** How a start ends. */
  datatype Ending = Fails(code: int) | FailsAndUnregisters(code: int) | RollsBack(code: int) | Succeeds

  function EndingOf(family: Family, o: Outcome): Ending {
    match family
    case Scan =>
      if o.setup != 0 then Fails(o.setup)
      else if o.setupReply != 0 then Fails(o.setupReply)
      else if o.config != 0 then Fails(o.config)
      else if o.configReply != 0 then Fails(o.configReply)
      else if o.start != 0 then Fails(o.start)
      else if o.startReply != 0 then RollsBack(o.startReply)
      else Succeeds
    case Hotlist =>
      if o.setup != 0 then Fails(o.setup)
      else if o.setupReply != 0 then FailsAndUnregisters(o.setupReply)
      else if o.start != 0 then Fails(o.start)
      else if o.startReply != 0 then RollsBack(o.startReply)
      else Succeeds
    case FullScan =>
      if o.start != 0 then Fails(o.start)
      else if o.startReply != 0 then RollsBack(o.startReply)
      else Succeeds
    case Rssi =>
      if o.setup != 0 then Fails(o.setup) else if o.setupReply != 0 then Fails(o.setupReply) else Succeeds
    case Rtt =>
      if o.setup != 0 then Fails(o.setup) else if o.setupReply != 0 then Fails(o.setupReply) else Succeeds
    case Log => Succeeds
    case Alert => Succeeds
  }

  function Result(e: Ending): int {
    if e.Succeeds? then 0 else e.code
  }

  /** The codes that a start of the family asks for, in order: of each request it creates, and of each it sends. */
  function Codes(family: Family, o: Outcome): seq<Code> {
    match family
    case Scan => [o.setup, o.setupReply, o.config, o.configReply, o.start, o.startReply]
    case Hotlist => [o.setup, o.setupReply, o.start, o.startReply]
    case FullScan => [o.start, o.startReply]
    case Rssi => [o.setup, o.setupReply]
    case Rtt => [o.setup, o.setupReply]
    case Log => []
    case Alert => []
  }

  /** How many of them come before the handlers are registered. */
  function AskedFirst(family: Family): nat {
    match family
    case Scan => 5
    case Hotlist => 3
    case FullScan => 1
    case Rssi => 2
    case Rtt => 2
    case Log => 0
    case Alert => 0
  }

  /** Where the first code is that is not 0. */
  function FirstBad(codes: seq<Code>): (k: nat)
    ensures k <= |codes| && (forall j :: 0 <= j < k ==> codes[j] == 0) && (k < |codes| ==> codes[k] != 0)
  {
    if codes == [] || codes[0] != 0 then 0 else 1 + FirstBad(codes[1..])
  }

  /** The result of a start: the first code that is not 0, or 0. */
  function FirstFailure(codes: seq<Code>): int {
    if FirstBad(codes) < |codes| then codes[FirstBad(codes)] else 0
  }

  /** The start stops at the first code that is not 0. Its handlers are registered, and removed again, when only later
      ones are bad; and a hotlist removes them also when its second is. */
  lemma StartStopsAtFirstFailure(family: Family, o: Outcome)
    ensures var codes := Codes(family, o);
            var k := FirstBad(codes);
            EndingOf(family, o) ==
              if k == |codes| then Succeeds
              else if k >= AskedFirst(family) then RollsBack(codes[k])
              else if family.Hotlist? && k == 1 then FailsAndUnregisters(codes[k])
              else Fails(codes[k])
    ensures Result(EndingOf(family, o)) == FirstFailure(Codes(family, o))
    ensures EndingOf(family, o).Succeeds? <==> forall i :: 0 <= i < |Codes(family, o)| ==> Codes(family, o)[i] == 0
  {
    var codes := Codes(family, o);
    match family {
      case Scan =>
        FirstBadIs(codes, if o.setup != 0 then 0 else if o.setupReply != 0 then 1 else if o.config != 0 then 2
                          else if o.configReply != 0 then 3 else if o.start != 0 then 4
                          else if o.startReply != 0 then 5 else 6);
      case Hotlist =>
        FirstBadIs(codes, if o.setup != 0 then 0 else if o.setupReply != 0 then 1 else if o.start != 0 then 2
                          else if o.startReply != 0 then 3 else 4);
      case FullScan => FirstBadIs(codes, if o.start != 0 then 0 else if o.startReply != 0 then 1 else 2);
      case Rssi => FirstBadIs(codes, if o.setup != 0 then 0 else if o.setupReply != 0 then 1 else 2);
      case Rtt => FirstBadIs(codes, if o.setup != 0 then 0 else if o.setupReply != 0 then 1 else 2);
      case Log =>
      case Alert =>
    }
  }

  lemma FirstBadIs(codes: seq<Code>, k: nat)
    requires k <= |codes| && (forall j :: 0 <= j < k ==> codes[j] == 0) && (k < |codes| ==> codes[k] != 0)
    ensures FirstBad(codes) == k
  {
    var l := FirstBad(codes);
    if l < k {
      assert false;
    } else if k < l {
      assert false;
    }
  }

  function AfterStart(s: seq<Cb>, capacity: nat, c: WifiCommand, ending: Ending): seq<Cb> {
    var kind := KindOf(c.family);
    match ending
    case Fails(_) => s
    case FailsAndUnregisters(_) => UnregisterAll(s, kind.removal)
    case RollsBack(_) => UnregisterAll(RegisterAll(s, capacity, kind.keys, c), kind.removal)
    case Succeeds => RegisterAll(s, capacity, kind.keys, c)
  }

  /** The seven families are kinds that the theorems about threads are about, and no family has a key twice;
      they fail and retire as the starts and cancels here do. */
  lemma KeysOf(family: Family, o: Outcome)
    ensures var kind := KindOf(family); L.GoodKind(kind) && Distinct(kind.keys) && Distinct(kind.removal)
    ensures var kind := KindOf(family);
            && (kind.mayFailLate <==> AskedFirst(family) < |Codes(family, o)|)
            && (kind.earlyUnregisters <==> family.Hotlist?) && (kind.cancelUnregisters <==> family.Alert?)
            && (kind.selfRetires <==> family.Rtt?)
  {
    L.TheKindsAreGood();
    match family
    case Scan =>
    case _ =>
  }

  /** Of any two families only a scan and full scan results listen to an event in common. */
  lemma OnlyScansShareAnEvent(f: Family, g: Family)
    requires f != g
    ensures (exists k :: k in KindOf(f).keys && k in KindOf(g).keys) <==> {f, g} == {Scan, FullScan}
  {
    var k := L.Vendor(L.GSCAN_EVENT_FULL_SCAN_RESULTS);
    assert k == L.SCAN.keys[2] && k == L.FULL_SCAN.keys[0];
    if {f, g} == {Scan, FullScan} {
      assert f in {f, g} && g in {f, g};
      assert k in KindOf(f).keys && k in KindOf(g).keys;
    } else {
      forall k | k in KindOf(f).keys && k in KindOf(g).keys ensures false {
        EventsTellApart(f, g, k);
      }
    }
  }

  lemma EventsTellApart(f: Family, g: Family, k: Key)
    requires k in KindOf(f).keys && k in KindOf(g).keys && f != g
    ensures (f.Scan? && g.FullScan?) || (f.FullScan? && g.Scan?)
  {
    assert k.subcmd in EventsOf(f) && k.subcmd in EventsOf(g);
  }

  lemma ListensTo(f: Family)
    ensures forall e :: e in EventsOf(f) <==> L.Vendor(e) in KindOf(f).keys
    ensures forall k :: k in KindOf(f).keys ==> k == L.Vendor(k.subcmd)
  {}

  /** The events of a family by their numbers. */
  function EventsOf(f: Family): set<int> {
    match f
    case Scan => {4, 5, 7}
    case FullScan => {5}
    case Hotlist => {3, 8}
    case Rssi => {13}
    case Log => {10}
    case Alert => {11}
    case Rtt => {6}
  }

  /** Whatever the driver answers, a start that fails leaves the callbacks as they were. */
  lemma FailedStartLeavesNothing(s: seq<Cb>, capacity: nat, c: WifiCommand, o: Outcome)
    requires |s| <= capacity && Unused(s, KindOf(c.family).removal) && !EndingOf(c.family, o).Succeeds?
    ensures AfterStart(s, capacity, c, EndingOf(c.family, o)) == s
  {
    var kind := KindOf(c.family);
    KeysOf(c.family, o);
    match EndingOf(c.family, o) {
      case Fails(_) =>
      case FailsAndUnregisters(_) => UnregisterAllIsIdle(s, kind.removal);
      case RollsBack(_) => RollbackLeavesNothing(s, capacity, kind.keys, kind.removal, c);
    }
  }

  /** The callbacks of every command but this one. */
  function Without(s: seq<Cb>, c: WifiCommand): seq<Cb> {
    if s == [] then []
    else if s[0].arg == c then Without(s[1..], c)
    else [s[0]] + Without(s[1..], c)
  }

  /** What unregistering a set of keys leaves: for each of them the first entry goes. */
  function AfterFirsts(s: seq<Cb>, keys: set<Key>): seq<Cb>
    decreases |s|
  {
    if s == [] then []
    else if s[0].key in keys then AfterFirsts(s[1..], keys - {s[0].key})
    else [s[0]] + AfterFirsts(s[1..], keys)
  }

  function KeySet(keys: seq<Key>): set<Key> { set k | k in keys }

  lemma {:induction false} NoFirsts(s: seq<Cb>)
    ensures AfterFirsts(s, {}) == s
  {
    if s == [] {
    } else {
      NoFirsts(s[1..]);
    }
  }

  lemma {:induction false} RemoveThenFirsts(s: seq<Cb>, k: Key, keys: set<Key>)
    requires k !in keys
    ensures AfterFirsts(RemoveKey(s, k), keys) == AfterFirsts(s, {k} + keys)
  {
    if s == [] {
    } else if s[0].key == k {
      assert {k} + keys - {k} == keys;
    } else {
      assert ([s[0]] + RemoveKey(s[1..], k))[1..] == RemoveKey(s[1..], k);
      if s[0].key in keys {
        assert {k} + (keys - {s[0].key}) == {k} + keys - {s[0].key};
        RemoveThenFirsts(s[1..], k, keys - {s[0].key});
      } else {
        RemoveThenFirsts(s[1..], k, keys);
      }
    }
  }

  lemma {:induction false} UnregisterAllIsAfterFirsts(s: seq<Cb>, keys: seq<Key>)
    requires Distinct(keys)
    ensures UnregisterAll(s, keys) == AfterFirsts(s, KeySet(keys))
    decreases |keys|
  {
    if keys == [] {
      assert KeySet(keys) == {};
      NoFirsts(s);
    } else {
      assert KeySet(keys) == {keys[0]} + KeySet(keys[1..]);
      UnregisterAllIsAfterFirsts(RemoveKey(s, keys[0]), keys[1..]);
      RemoveThenFirsts(s, keys[0], KeySet(keys[1..]));
    }
  }

  /** No entry before it has its key. */
  predicate IsFirst(s: seq<Cb>, i: nat)
    requires i < |s|
  {
    forall j :: 0 <= j < i ==> s[j].key != s[i].key
  }

  /** An entry is the command's exactly when it is the first for one of these keys. */
  predicate Foremost(s: seq<Cb>, c: WifiCommand, keys: set<Key>) {
    forall i :: 0 <= i < |s| ==> (s[i].arg == c <==> s[i].key in keys && IsFirst(s, i))
  }

  lemma ForemostOfRest(s: seq<Cb>, c: WifiCommand, keys: set<Key>)
    requires s != []
    ensures Foremost(s, c, keys)
       <==> (s[0].arg == c <==> s[0].key in keys) && Foremost(s[1..], c, keys - {s[0].key})
  {
    var rest := s[1..];
    assert IsFirst(s, 0);
    forall i | 0 <= i < |rest|
      ensures rest[i] == s[i + 1] && (IsFirst(s, i + 1) <==> s[0].key != rest[i].key && IsFirst(rest, i))
    {
      if s[0].key != rest[i].key && IsFirst(rest, i) {
        forall j | 0 <= j < i + 1 ensures s[j].key != s[i + 1].key {
          assert j > 0 ==> s[j] == rest[j - 1];
        }
      }
      if IsFirst(s, i + 1) {
        forall j | 0 <= j < i ensures rest[j].key != rest[i].key {
          assert rest[j] == s[j + 1];
        }
      }
    }
    if Foremost(s, c, keys) {
      forall i | 0 <= i < |rest|
        ensures rest[i].arg == c <==> rest[i].key in keys - {s[0].key} && IsFirst(rest, i)
      {
        assert s[i + 1] == rest[i];
      }
    }
  }

  lemma {:induction false} WithoutMembers(s: seq<Cb>, c: WifiCommand)
    ensures forall e :: e in Without(s, c) ==> e.arg != c
  {
    if s == [] {
    } else {
      WithoutMembers(s[1..], c);
    }
  }

  lemma {:induction false} QueueWithout(s: seq<Cb>, c: WifiCommand, k: Key)
    requires forall e :: e in Queue(s, k) ==> e.arg != c
    ensures Queue(Without(s, c), k) == Queue(s, k)
  {
    if s == [] {
    } else {
      assert s[0].key == k ==> s[0] in Queue(s, k);
      QueueWithout(s[1..], c, k);
      if s[0].arg != c {
        assert Without(s, c)[1..] == Without(s[1..], c);
      }
    }
  }

  lemma {:induction false} QueueAfterFirsts(s: seq<Cb>, keys: set<Key>, k: Key)
    requires k !in keys
    ensures Queue(AfterFirsts(s, keys), k) == Queue(s, k)
    decreases |s|
  {
    if s == [] {
    } else if s[0].key in keys {
      QueueAfterFirsts(s[1..], keys - {s[0].key}, k);
    } else {
      QueueAfterFirsts(s[1..], keys, k);
      assert AfterFirsts(s, keys)[1..] == AfterFirsts(s[1..], keys);
    }
  }

  /** The first entry for a key goes although it is another command's: the command's own stays, or too few do. */
  lemma AnothersFirst(s: seq<Cb>, c: WifiCommand, e: Cb, keys: set<Key>)
    requires e.arg != c && e.key !in keys
    ensures AfterFirsts(s, keys) != [e] + Without(s, c)
  {
    var left, right := AfterFirsts(s, keys), [e] + Without(s, c);
    assert right[1..] == Without(s, c);
    if left == right {
      WithoutMembers(s, c);
      QueueAfterFirsts(s, keys, e.key);
      L.QueueMembers(left, e.key);
      QueueWithout(s, c, e.key);
    }
  }

  lemma {:induction false} FirstsAreItsOwn(s: seq<Cb>, c: WifiCommand, keys: set<Key>)
    ensures AfterFirsts(s, keys) == Without(s, c) <==> Foremost(s, c, keys)
    decreases |s|
  {
    if s == [] {
    } else {
      var e, rest := s[0], s[1..];
      ForemostOfRest(s, c, keys);
      if e.key in keys && e.arg != c {
        AnothersFirst(rest, c, e, keys - {e.key});
      } else if e.key !in keys && e.arg == c {
        WithoutMembers(s, c);
        assert AfterFirsts(s, keys)[0] == e;
      } else {
        FirstsAreItsOwn(rest, c, keys - {e.key});
        assert e.key !in keys ==> keys - {e.key} == keys;
        assert e.key !in keys ==> AfterFirsts(s, keys)[1..] == AfterFirsts(rest, keys);
        assert e.arg != c ==> Without(s, c)[1..] == Without(rest, c);
      }
    }
  }

  /** A cancel takes away the callbacks of its command and leaves all others, in order, exactly when the command's
      callbacks are the first for its keys. */
  lemma CancelRemovesExactly(s: seq<Cb>, c: WifiCommand)
    ensures UnregisterAll(s, KindOf(c.family).removal) == Without(s, c)
       <==> Foremost(s, c, KeySet(KindOf(c.family).removal))
  {
    KeysOf(c.family, Outcome(0, 0, 0, 0, 0, 0));
    UnregisterAllIsAfterFirsts(s, KindOf(c.family).removal);
    FirstsAreItsOwn(s, c, KeySet(KindOf(c.family).removal));
  }

  /** The command has exactly the registrations for its keys. */
  predicate Owns(s: seq<Cb>, c: WifiCommand) {
    forall e :: e in s ==> (e.arg == c <==> e.key in KindOf(c.family).removal)
  }

  /** So it is when no two commands listen to the same key. */
  lemma OwnedAreForemost(s: seq<Cb>, c: WifiCommand)
    requires OwnKeys(s) && Owns(s, c)
    ensures UnregisterAll(s, KindOf(c.family).removal) == Without(s, c)
  {
    CancelRemovesExactly(s, c);
    forall i | 0 <= i < |s|
      ensures s[i].arg == c <==> s[i].key in KeySet(KindOf(c.family).removal) && IsFirst(s, i)
    {
      assert s[i] in s;
    }
  }

  /** Full scan results beside a scan: both listen to the same event, and cancelling the full scan takes away the
      scan's callback and leaves its own. */
  lemma FullScanBesideScan(scan: WifiCommand, fullScan: WifiCommand)
    requires scan != fullScan && fullScan.family.FullScan?
    ensures var k := L.Vendor(L.GSCAN_EVENT_FULL_SCAN_RESULTS);
            var s: seq<Cb> := [Entry(k, scan), Entry(k, fullScan)];
            && k in L.SCAN.keys
            && UnregisterAll(s, L.FULL_SCAN.removal) == [Entry(k, fullScan)]
            && Without(s, fullScan) == [Entry(k, scan)]
  {
    var k := L.Vendor(L.GSCAN_EVENT_FULL_SCAN_RESULTS);
    var s: seq<Cb> := [Entry(k, scan), Entry(k, fullScan)];
    UnregisterOne(s, k);
    assert s[1..] == [Entry(k, fullScan)] && s[1..][1..] == [];
    assert Without(s[1..], fullScan) == Without([], fullScan) == [];
    assert k == L.SCAN.keys[2];
  }

  lemma RegisterOne(s: seq<Cb>, capacity: nat, x: Key, c: WifiCommand)
    ensures RegisterAll(s, capacity, [x], c) == Append(s, capacity, Entry(x, c))
  {
    assert RegisterAll(Append(s, capacity, Entry(x, c)), capacity, [], c) == Append(s, capacity, Entry(x, c));
  }

  lemma RegisterTwo(s: seq<Cb>, capacity: nat, x: Key, y: Key, c: WifiCommand)
    ensures RegisterAll(s, capacity, [x, y], c) == Append(Append(s, capacity, Entry(x, c)), capacity, Entry(y, c))
  {
    assert [x, y][1..] == [y];
    RegisterOne(Append(s, capacity, Entry(x, c)), capacity, y, c);
  }

  lemma RegisterThree(s: seq<Cb>, capacity: nat, x: Key, y: Key, z: Key, c: WifiCommand)
    ensures var s' := Append(Append(s, capacity, Entry(x, c)), capacity, Entry(y, c));
            RegisterAll(s, capacity, [x, y, z], c) == Append(s', capacity, Entry(z, c))
  {
    assert [x, y, z][1..] == [y, z];
    RegisterTwo(Append(s, capacity, Entry(x, c)), capacity, y, z, c);
  }

  lemma UnregisterOne(s: seq<Cb>, x: Key)
    ensures UnregisterAll(s, [x]) == RemoveKey(s, x)
  {
    assert UnregisterAll(RemoveKey(s, x), []) == RemoveKey(s, x);
  }

  lemma UnregisterTwo(s: seq<Cb>, x: Key, y: Key)
    ensures UnregisterAll(s, [x, y]) == RemoveKey(RemoveKey(s, x), y)
  {
    assert [x, y][1..] == [y];
    UnregisterOne(RemoveKey(s, x), y);
  }

  lemma UnregisterThree(s: seq<Cb>, x: Key, y: Key, z: Key)
    ensures UnregisterAll(s, [x, y, z]) == RemoveKey(RemoveKey(RemoveKey(s, x), y), z)
  {
    assert [x, y, z][1..] == [y, z];
    UnregisterTwo(RemoveKey(s, x), y, z);
  }

  type Info = HalInfo<WifiCommand?>

  method RegisterVendorHandler(info: Info, c: WifiCommand, event: int)
    requires info.Valid()
    modifies info`numEventCb, info.eventCb
    ensures info.Valid()
    ensures info.Events() == Append(old(info.Events()), info.eventCb.Length, Entry(L.Vendor(event), c))
  {
    var _ := info.RegisterVendorHandler(GOOGLE_OUI, event, EVENT_HANDLER, c);
  }

  method UnregisterVendorHandler(info: Info, event: int)
    requires info.Valid()
    modifies info`numEventCb, info.eventCb
    ensures info.Valid()
    ensures info.Events() == RemoveKey(old(info.Events()), L.Vendor(event))
  {
    info.UnregisterVendorHandler(GOOGLE_OUI, event);
  }

  method RegisterScan(info: Info, c: WifiCommand)
    requires info.Valid()
    modifies info`numEventCb, info.eventCb
    ensures info.Valid()
    ensures info.Events() == RegisterAll(old(info.Events()), info.eventCb.Length, L.SCAN.keys, c)
  {
    RegisterThree(info.Events(), info.eventCb.Length, L.Vendor(L.GSCAN_EVENT_SCAN_RESULTS_AVAILABLE),
      L.Vendor(L.GSCAN_EVENT_COMPLETE_SCAN), L.Vendor(L.GSCAN_EVENT_FULL_SCAN_RESULTS), c);
    RegisterVendorHandler(info, c, L.GSCAN_EVENT_SCAN_RESULTS_AVAILABLE);
    RegisterVendorHandler(info, c, L.GSCAN_EVENT_COMPLETE_SCAN);
    RegisterVendorHandler(info, c, L.GSCAN_EVENT_FULL_SCAN_RESULTS);
  }

  method UnregisterScan(info: Info)
    requires info.Valid()
    modifies info`numEventCb, info.eventCb
    ensures info.Valid()
    ensures info.Events() == UnregisterAll(old(info.Events()), L.SCAN.removal)
  {
    UnregisterThree(info.Events(), L.Vendor(L.GSCAN_EVENT_COMPLETE_SCAN),
      L.Vendor(L.GSCAN_EVENT_SCAN_RESULTS_AVAILABLE), L.Vendor(L.GSCAN_EVENT_FULL_SCAN_RESULTS));
    UnregisterVendorHandler(info, L.GSCAN_EVENT_COMPLETE_SCAN);
    UnregisterVendorHandler(info, L.GSCAN_EVENT_SCAN_RESULTS_AVAILABLE);
    UnregisterVendorHandler(info, L.GSCAN_EVENT_FULL_SCAN_RESULTS);
  }

  method RegisterHotlist(info: Info, c: WifiCommand)
    requires info.Valid()
    modifies info`numEventCb, info.eventCb
    ensures info.Valid()
    ensures info.Events() == RegisterAll(old(info.Events()), info.eventCb.Length, L.HOTLIST.keys, c)
  {
    RegisterTwo(info.Events(), info.eventCb.Length, L.Vendor(L.GSCAN_EVENT_HOTLIST_RESULTS_FOUND),
      L.Vendor(L.GSCAN_EVENT_HOTLIST_RESULTS_LOST), c);
    RegisterVendorHandler(info, c, L.GSCAN_EVENT_HOTLIST_RESULTS_FOUND);
    RegisterVendorHandler(info, c, L.GSCAN_EVENT_HOTLIST_RESULTS_LOST);
  }

  method UnregisterHotlist(info: Info)
    requires info.Valid()
    modifies info`numEventCb, info.eventCb
    ensures info.Valid()
    ensures info.Events() == UnregisterAll(old(info.Events()), L.HOTLIST.removal)
  {
    UnregisterTwo(info.Events(), L.Vendor(L.GSCAN_EVENT_HOTLIST_RESULTS_FOUND),
      L.Vendor(L.GSCAN_EVENT_HOTLIST_RESULTS_LOST));
    UnregisterVendorHandler(info, L.GSCAN_EVENT_HOTLIST_RESULTS_FOUND);
    UnregisterVendorHandler(info, L.GSCAN_EVENT_HOTLIST_RESULTS_LOST);
  }

  /** The one event of the other families. */
  function EventOf(family: Family): int
    requires !family.Scan? && !family.Hotlist?
  {
    match family
    case FullScan => L.GSCAN_EVENT_FULL_SCAN_RESULTS
    case Rssi => L.GOOGLE_RSSI_MONITOR_EVENT
    case Log => L.GOOGLE_DEBUG_RING_EVENT
    case Alert => L.GOOGLE_DEBUG_MEM_DUMP_EVENT
    case Rtt => L.RTT_EVENT_COMPLETE
  }

  method StartScan(info: Info, c: WifiCommand, o: Outcome) returns (result: Code)
    requires info.Valid() && c.family.Scan?
    modifies info`numEventCb, info.eventCb
    ensures info.Valid()
    ensures info.Events() == AfterStart(old(info.Events()), info.eventCb.Length, c, EndingOf(Scan, o))
    ensures result == FirstFailure(Codes(Scan, o))
  {
    StartStopsAtFirstFailure(Scan, o);
    result := o.setup;
    if result != 0 {
      return;
    }
    result := o.setupReply;
    if result != 0 {
      return;
    }
    result := o.config;
    if result != 0 {
      return;
    }
    result := o.configReply;
    if result != 0 {
      return;
    }
    result := o.start;
    if result != 0 {
      return;
    }
    RegisterScan(info, c);
    result := o.startReply;
    if result != 0 {
      UnregisterScan(info);
    }
  }

  method StartHotlist(info: Info, c: WifiCommand, o: Outcome) returns (result: Code)
    requires info.Valid() && c.family.Hotlist?
    modifies info`numEventCb, info.eventCb
    ensures info.Valid()
    ensures info.Events() == AfterStart(old(info.Events()), info.eventCb.Length, c, EndingOf(Hotlist, o))
    ensures result == FirstFailure(Codes(Hotlist, o))
  {
    StartStopsAtFirstFailure(Hotlist, o);
    result := o.setup;
    if result < 0 {
      return;
    }
    result := o.setupReply;
    if result < 0 {
      UnregisterHotlist(info);
      return;
    }
    result := o.start;
    if result < 0 {
      return;
    }
    RegisterHotlist(info, c);
    result := o.startReply;
    if result < 0 {
      UnregisterHotlist(info);
    }
  }

  method StartFullScan(info: Info, c: WifiCommand, o: Outcome) returns (result: Code)
    requires info.Valid() && c.family.FullScan?
    modifies info`numEventCb, info.eventCb
    ensures info.Valid()
    ensures info.Events() == AfterStart(old(info.Events()), info.eventCb.Length, c, EndingOf(FullScan, o))
    ensures result == FirstFailure(Codes(FullScan, o))
  {
    StartStopsAtFirstFailure(FullScan, o);
    result := o.start;
    if result != 0 {
      return;
    }
    ghost var k := L.Vendor(L.GSCAN_EVENT_FULL_SCAN_RESULTS);
    RegisterOne(info.Events(), info.eventCb.Length, k, c);
    RegisterVendorHandler(info, c, L.GSCAN_EVENT_FULL_SCAN_RESULTS);
    result := o.startReply;
    if result != 0 {
      UnregisterOne(info.Events(), k);
      UnregisterVendorHandler(info, L.GSCAN_EVENT_FULL_SCAN_RESULTS);
    }
  }

  /** RSSI monitoring and ranging register when the driver has agreed. */
  method StartMonitor(info: Info, c: WifiCommand, o: Outcome) returns (result: Code)
    requires info.Valid() && (c.family.Rssi? || c.family.Rtt?)
    modifies info`numEventCb, info.eventCb
    ensures info.Valid()
    ensures info.Events() == AfterStart(old(info.Events()), info.eventCb.Length, c, EndingOf(c.family, o))
    ensures result == FirstFailure(Codes(c.family, o))
  {
    StartStopsAtFirstFailure(c.family, o);
    result := o.setup;
    if result < 0 {
      return;
    }
    result := o.setupReply;
    if result < 0 {
      return;
    }
    RegisterOne(info.Events(), info.eventCb.Length, L.Vendor(EventOf(c.family)), c);
    RegisterVendorHandler(info, c, EventOf(c.family));
  }

  /** The log and alert handlers only register. */
  method StartLogger(info: Info, c: WifiCommand, o: Outcome) returns (result: Code)
    requires info.Valid() && (c.family.Log? || c.family.Alert?)
    modifies info`numEventCb, info.eventCb
    ensures info.Valid()
    ensures info.Events() == AfterStart(old(info.Events()), info.eventCb.Length, c, EndingOf(c.family, o))
    ensures result == FirstFailure(Codes(c.family, o))
  {
    StartStopsAtFirstFailure(c.family, o);
    RegisterOne(info.Events(), info.eventCb.Length, L.Vendor(EventOf(c.family)), c);
    RegisterVendorHandler(info, c, EventOf(c.family));
    result := 0;
  }

  method Start(info: Info, c: WifiCommand, o: Outcome) returns (result: Code)
    requires info.Valid()
    modifies info`numEventCb, info.eventCb
    ensures info.Valid()
    ensures info.Events() == AfterStart(old(info.Events()), info.eventCb.Length, c, EndingOf(c.family, o))
    ensures result == FirstFailure(Codes(c.family, o))
  {
    StartStopsAtFirstFailure(c.family, o);
    match c.family {
      case Scan => result := StartScan(info, c, o);
      case Hotlist => result := StartHotlist(info, c, o);
      case FullScan => result := StartFullScan(info, c, o);
      case Rssi => result := StartMonitor(info, c, o);
      case Rtt => result := StartMonitor(info, c, o);
      case Log => result := StartLogger(info, c, o);
      case Alert => result := StartLogger(info, c, o);
    }
  }

  /** Removes the handlers; what the driver says to the request that goes with it changes nothing. The alert handler
      takes itself out of the command table as well. */
  method Cancel(info: Info, c: WifiCommand)
    requires info.Valid() && c.refs > 0 && c.freed == 0
    modifies info, info.eventCb, info.cmd
    ensures info.Valid()
    ensures info.Events() == UnregisterAll(old(info.Events()), KindOf(c.family).removal)
    ensures info.Commands() == if c.family.Alert? then RemoveId(old(info.Commands()), c.id) else old(info.Commands())
  {
    if c.family.Scan? {
      UnregisterScan(info);
    } else if c.family.Hotlist? {
      UnregisterHotlist(info);
    } else {
      UnregisterOne(info.Events(), L.Vendor(EventOf(c.family)));
      UnregisterVendorHandler(info, EventOf(c.family));
      if c.family.Alert? {
        var _ := info.UnregisterCmdById(c.id);
      }
    }
  }

  datatype StartResult = Started | NoRoom | Refused(code: int)

  /** wifi_start_gscan and its kind: a new command goes into the table and is started; on any failure nothing of it
      stays behind and it is freed. */
  method StartCommand(info: Info, family: Family, id: int, o: Outcome) returns (result: StartResult, c: WifiCommand)
    requires info.Valid() && Unused(info.Events(), KindOf(family).removal)
    requires forall e :: e in info.Commands() ==> e.id != id
    modifies info, info.eventCb, info.cmd
    ensures info.Valid() && fresh(c) && c.family == family && c.id == id
    ensures var codes := Codes(family, o);
            result == if |old(info.Commands())| >= info.cmd.Length then NoRoom
                      else if FirstBad(codes) < |codes| then Refused(FirstFailure(codes))
                      else Started
    ensures !result.Started? ==>
              info.Events() == old(info.Events()) && info.Commands() == old(info.Commands()) && c.freed == 1
    ensures result.Started? ==>
              && info.Commands() == old(info.Commands()) + [CmdInfo(id, c)]
              && info.Events() == RegisterAll(old(info.Events()), info.eventCb.Length, KindOf(family).keys, c)
              && c.refs == 1 && c.freed == 0
  {
    c := new WifiCommand(family, id);
    ghost var commands := info.Commands();
    ghost var events := info.Events();
    var status := info.RegisterCmd(id, c);
    if status != WifiSuccess {
      c.ReleaseRef();
      return NoRoom, c;
    }
    StartStopsAtFirstFailure(family, o);
    var code := Start(info, c, o);
    if code != 0 {
      RemoveIdRemovesIt(commands, [], CmdInfo(id, c));
      assert commands + [CmdInfo(id, c as WifiCommand?)] + [] == info.Commands();
      var _ := info.UnregisterCmdById(id);
      c.ReleaseRef();
      FailedStartLeavesNothing(events, info.eventCb.Length, c, o);
      return Refused(code), c;
    }
    return Started, c;
  }

  /** Every command in the table is alive and there under its own id, which no other has. */
  ghost predicate Alive(s: seq<Cmd>)
    reads set e | e in s && e.cmd != null :: e.cmd
  {
    && (forall e :: e in s ==> e.cmd != null && e.cmd.id == e.id && e.cmd.refs > 0 && e.cmd.freed == 0)
    && OwnIds(s)
  }

  predicate OwnIds(s: seq<Cmd>) {
    forall i, j :: 0 <= i < j < |s| ==> s[i].id != s[j].id
  }

  lemma {:induction false} RemovedIdIsGone(s: seq<Cmd>, id: int)
    requires OwnIds(s)
    ensures RemoveId(RemoveId(s, id), id) == RemoveId(s, id)
    ensures FindId(s, id).Some? ==> CmdInfo(id, FindId(s, id).value) in s
    ensures FindId(s, id) == None ==> forall e :: e in s ==> e.id != id
  {
    if s == [] {
    } else {
      RemovedIdIsGone(s[1..], id);
      if s[0].id == id {
        NotThere(s[1..], id);
      } else {
        var rest := RemoveId(s[1..], id);
        assert ([s[0]] + rest)[1..] == rest;
      }
    }
  }

  lemma {:induction false} NotThere(s: seq<Cmd>, id: int)
    requires forall e :: e in s ==> e.id != id
    ensures RemoveId(s, id) == s
  {
    if s == [] {
    } else {
      assert s[0] in s;
      NotThere(s[1..], id);
      assert [s[0]] + s[1..] == s;
    }
  }

  /** wifi_cancel_cmd: what the id finds is taken out, cancelled and let go; an id that finds nothing changes
      nothing. */
  method CancelCommand(info: Info, id: int) returns (found: bool)
    requires info.Valid() && Alive(info.Commands())
    modifies info, info.eventCb, info.cmd, set e | e in info.Commands() && e.cmd != null :: e.cmd
    ensures info.Valid()
    ensures found <==> FindId(old(info.Commands()), id).Some?
    ensures !found ==> info.Events() == old(info.Events())
    ensures info.Commands() == RemoveId(old(info.Commands()), id)
    ensures forall e :: e in old(info.Commands()) ==>
              if e.id == id then e.cmd.refs == old(e.cmd.refs) - 1 && e.cmd.freed == L.Bit(e.cmd.refs == 0)
              else e.cmd.refs == old(e.cmd.refs) && e.cmd.freed == 0
    ensures found ==>
              var c: WifiCommand? := FindId(old(info.Commands()), id).value;
              && c != null
              && info.Events() == UnregisterAll(old(info.Events()), KindOf(c.family).removal)
              && (info.Events() == Without(old(info.Events()), c) <==>
                    Foremost(old(info.Events()), c, KeySet(KindOf(c.family).removal)))
  {
    ghost var commands, events := info.Commands(), info.Events();
    RemovedIdIsGone(commands, id);
    var cmd := info.UnregisterCmdById(id);
    if cmd == None {
      return false;
    }
    assert CmdInfo(id, cmd.value) in commands;
    Cancel(info, cmd.value);
    cmd.value.ReleaseRef();
    CancelRemovesExactly(events, cmd.value);
    return true;
  }
}
