/** The end of the HAL: every command left in the table is cancelled and let go. */
module Cleanup {
  import opened HandlerTables
  import opened StartCancel
  import L = CommandLifecycle

  datatype Act = Cancelled(c: WifiCommand) | Released(c: WifiCommand)

  function ActsOn(e: Cmd): seq<Act> {
    if e.cmd == null then [] else [Cancelled(e.cmd), Released(e.cmd)]
  }

  predicate NoNull(s: seq<Cmd>) {
    forall i :: 0 <= i < |s| ==> s[i].cmd != null
  }

  /** Each of the first n commands once cancelled and then once released, in the order of the table. */
  function Acts(s: seq<Cmd>, n: nat): seq<Act>
    requires n <= |s|
  {
    if n == 0 then [] else Acts(s, n - 1) + ActsOn(s[n - 1])
  }

  /** The i-th command is cancelled in the 2i-th act and released in the next. */
  predicate InTurn(log: seq<Act>, s: seq<Cmd>) {
    && |log| == 2 * |s|
    && forall i :: 0 <= i < |s| ==>
         s[i].cmd != null && log[2 * i] == Cancelled(s[i].cmd) && log[2 * i + 1] == Released(s[i].cmd)
  }

  lemma {:induction false} ActsAreInTurn(s: seq<Cmd>, n: nat)
    requires n <= |s| && NoNull(s)
    ensures InTurn(Acts(s, n), s[..n])
  {
    if n == 0 {
    } else {
      ActsAreInTurn(s, n - 1);
      var log, t := Acts(s, n), s[..n];
      forall i | 0 <= i < n
        ensures t[i].cmd != null && log[2 * i] == Cancelled(t[i].cmd) && log[2 * i + 1] == Released(t[i].cmd)
      {
        assert i < n - 1 ==> s[..n - 1][i] == t[i];
      }
    }
  }

  /** The command is cancelled once, and released once after that. */
  ghost predicate CancelledThenReleased(log: seq<Act>, c: WifiCommand) {
    exists i: nat, j: nat :: OnlyAt(log, Cancelled(c), i) && OnlyAt(log, Released(c), j) && i < j
  }

  predicate OnlyAt(log: seq<Act>, act: Act, i: nat) {
    i < |log| && forall k :: 0 <= k < |log| ==> (log[k] == act <==> k == i)
  }

  lemma OnceInTurn(log: seq<Act>, s: seq<Cmd>, i: nat, c: WifiCommand)
    requires InTurn(log, s) && i < |s| && s[i].cmd == c
    requires forall j :: 0 <= j < |s| && s[j].cmd == c ==> j == i
    ensures CancelledThenReleased(log, c)
  {
    forall k | 0 <= k < |log|
      ensures log[k] == Cancelled(c) <==> k == 2 * i
      ensures log[k] == Released(c) <==> k == 2 * i + 1
    {
      assert k == 2 * (k / 2) || k == 2 * (k / 2) + 1;
      assert s[k / 2].cmd == c ==> k / 2 == i;
    }
    assert OnlyAt(log, Cancelled(c), 2 * i) && OnlyAt(log, Released(c), 2 * i + 1);
  }

  /** The cancel of the entry's command takes it out of the table. */
  predicate TakenOut(e: Cmd) {
    e.cmd != null && e.cmd.family.Alert?
  }

  /** Of the first n entries, those of commands whose cancel leaves them in the table. */
  function Kept(s: seq<Cmd>, n: nat): seq<Cmd>
    requires n <= |s|
  {
    if n == 0 then [] else Kept(s, n - 1) + if TakenOut(s[n - 1]) then [] else [s[n - 1]]
  }

  function Removal(e: Cmd): seq<Key> {
    if e.cmd == null then [] else KindOf(e.cmd.family).removal
  }

  /** Everything the first n commands unregister. */
  function Removals(s: seq<Cmd>, n: nat): seq<Key>
    requires n <= |s|
  {
    if n == 0 then [] else Removals(s, n - 1) + Removal(s[n - 1])
  }

  lemma {:induction false} KeptMembers(s: seq<Cmd>, n: nat)
    requires n <= |s|
    ensures forall e :: e in Kept(s, n) ==> e in s[..n]
  {
    if n == 0 {
    } else {
      KeptMembers(s, n - 1);
      assert s[..n] == s[..n - 1] + [s[n - 1]];
    }
  }

  lemma {:induction false} UnregisterInTurn(s: seq<Cb>, a: seq<Key>, b: seq<Key>)
    ensures UnregisterAll(s, a + b) == UnregisterAll(UnregisterAll(s, a), b)
    decreases |a|
  {
    if a == [] {
      assert a + b == b;
    } else {
      assert (a + b)[1..] == a[1..] + b;
      UnregisterInTurn(RemoveKey(s, a[0]), a[1..], b);
    }
  }

  /** An id is found before the end of the part that has it. */
  lemma {:induction false} RemoveIdNear(s: seq<Cmd>, t: seq<Cmd>, id: int)
    requires exists i :: 0 <= i < |s| && s[i].id == id
    ensures RemoveId(s + t, id) == RemoveId(s, id) + t && |RemoveId(s, id)| == |s| - 1
  {
    assert (s + t)[1..] == s[1..] + t;
    if s[0].id == id {
    } else {
      var i :| 0 <= i < |s| && s[i].id == id;
      assert s[1..][i - 1] == s[i];
      RemoveIdNear(s[1..], t, id);
      assert [s[0]] + (RemoveId(s[1..], id) + t) == [s[0]] + RemoveId(s[1..], id) + t;
    }
  }

  /** What the loop leaves behind of the entries before the next when it has cancelled e. */
  function LeftAfter(left: seq<Cmd>, e: Cmd): seq<Cmd>
  {
    if TakenOut(e) then RemoveId(left + [e], e.id) else left + [e]
  }

  lemma TableAfter(left: seq<Cmd>, e: Cmd, rest: seq<Cmd>, table: seq<Cmd>)
    requires table == if TakenOut(e) then RemoveId(left + ([e] + rest), e.id) else left + ([e] + rest)
    ensures table == LeftAfter(left, e) + rest
    ensures |LeftAfter(left, e)| == |left| + if TakenOut(e) then 0 else 1
  {
    assert left + ([e] + rest) == (left + [e]) + rest;
    if TakenOut(e) {
      assert (left + [e])[|left|] == e;
      RemoveIdNear(left + [e], rest, e.id);
    }
  }

  lemma LeftIsKept(all: seq<Cmd>, i: nat)
    requires OwnIds(all) && i < |all|
    ensures LeftAfter(Kept(all, i), all[i]) == Kept(all, i + 1)
  {
    var left := Kept(all, i);
    KeptMembers(all, i);
    forall f | f in left ensures f.id != all[i].id {
      assert f in all[..i];
    }
    RemoveIdRemovesIt(left, [], all[i]);
    assert left + [all[i]] + [] == left + [all[i]] && left + [] == left;
  }

  /** No two callbacks share a key, and each is for something a command in the table unregisters. */
  predicate Backed(s: seq<Cb>, commands: seq<Cmd>) {
    OwnKeys(s) && forall i :: 0 <= i < |s| ==> s[i].key in Removals(commands, |commands|)
  }

  /** Then none is left. */
  lemma NoCallbackIsLeft(s: seq<Cb>, commands: seq<Cmd>)
    requires Backed(s, commands)
    ensures UnregisterAll(s, Removals(commands, |commands|)) == []
  {
    UnregisterAllLeavesOthers(s, Removals(commands, |commands|));
    NoOthers(s, Removals(commands, |commands|));
  }

  // ---------------------------------------------------------------- the loop

  /** The loop between two rounds. */
  datatype Sweep = Sweep(table: seq<Cmd>, bad: nat, events: seq<Cb>, log: seq<Act>)

  /** A round: the first entry past the bad ones is cancelled and let go; one that stays in the table becomes bad. An
      entry without a command is not touched and stays where it is. */
  function Round(s: Sweep): (r: Sweep)
    requires s.bad < |s.table|
    ensures r.bad <= |r.table|
    ensures |r.table| - r.bad == |s.table| - s.bad - if s.table[s.bad].cmd == null then 0 else 1
  {
    var e := s.table[s.bad];
    var table := if TakenOut(e) then RemoveId(s.table, e.id) else s.table;
    RoundLength(s.table, s.bad);
    if e.cmd == null then s
    else
      Sweep(table, if |table| == |s.table| then s.bad + 1 else s.bad,
        UnregisterAll(s.events, Removal(e)), s.log + ActsOn(e))
  }

  lemma RoundLength(s: seq<Cmd>, i: nat)
    requires i < |s|
    ensures |RemoveId(s, s[i].id)| == |s| - 1
  {
    RemoveIdNear(s, [], s[i].id);
  }

  function Rounds(s: Sweep, n: nat): Sweep
    requires s.bad <= |s.table|
    decreases n
  {
    if n == 0 || s.bad == |s.table| then s else Rounds(Round(s), n - 1)
  }

  /** The loop has not ended after n rounds. */
  predicate GoesOn(s: Sweep, n: nat)
    requires s.bad <= |s.table|
  {
    Rounds(s, n).bad < |Rounds(s, n).table|
  }

  /** The loop comes to an end. */
  ghost predicate SweepEnds(s: Sweep)
    requires s.bad <= |s.table|
  {
    exists n: nat :: !GoesOn(s, n)
  }

  /** The loop after i commands: the entries left behind, and those of the commands still ahead. */
  predicate Reached(all: seq<Cmd>, i: nat, left: seq<Cmd>, before: seq<Cb>, s: Sweep)
    requires i <= |all|
  {
    && s.table == left + all[i..] && s.bad == |left|
    && s.log == Acts(all, i)
    && s.events == UnregisterAll(before, Removals(all, i))
    && (OwnIds(all) ==> left == Kept(all, i))
  }

  lemma ReachesNext(all: seq<Cmd>, i: nat, left: seq<Cmd>, before: seq<Cb>, s: Sweep)
    requires i < |all| && all[i].cmd != null && Reached(all, i, left, before, s)
    ensures s.bad < |s.table| && Reached(all, i + 1, LeftAfter(left, all[i]), before, Round(s))
  {
    assert all[i..] == [all[i]] + all[i + 1..];
    assert s.table[s.bad] == all[i];
    TableAfter(left, all[i], all[i + 1..], Round(s).table);
    UnregisterInTurn(before, Removals(all, i), Removal(all[i]));
    if OwnIds(all) {
      LeftIsKept(all, i);
    }
  }

  /** What the loop ends with. */
  predicate Swept(all: seq<Cmd>, before: seq<Cb>, r: Sweep) {
    && r.bad == |r.table|
    && r.log == Acts(all, |all|)
    && r.events == UnregisterAll(before, Removals(all, |all|))
    && (OwnIds(all) ==> r.table == Kept(all, |all|))
  }

  lemma {:induction false} RoundsFrom(all: seq<Cmd>, i: nat, left: seq<Cmd>, before: seq<Cb>, s: Sweep, n: nat)
    requires i + n == |all| && NoNull(all) && Reached(all, i, left, before, s)
    ensures Swept(all, before, Rounds(s, n))
    decreases n
  {
    if n == 0 {
      assert left + all[i..] == left;
    } else {
      ReachesNext(all, i, left, before, s);
      RoundsFrom(all, i + 1, LeftAfter(left, all[i]), before, Round(s), n - 1);
    }
  }

  lemma ReachedAtFirst(all: seq<Cmd>, before: seq<Cb>)
    ensures Reached(all, 0, [], before, Sweep(all, 0, before, []))
  {
    assert [] + all[0..] == all;
  }

  /** Whatever mix of cancels that remove their own entry and cancels that leave it: every command of the table is
      cancelled once and released once, in table order, and afterwards the table holds those whose cancel leaves
      them. */
  lemma {:induction false} SweepIsInTableOrder(all: seq<Cmd>, before: seq<Cb>)
    requires NoNull(all)
    ensures Swept(all, before, Rounds(Sweep(all, 0, before, []), |all|))
    ensures InTurn(Rounds(Sweep(all, 0, before, []), |all|).log, all)
  {
    ActsAreInTurn(all, |all|);
    assert all[..|all|] == all;
    ReachedAtFirst(all, before);
    RoundsFrom(all, 0, [], before, Sweep(all, 0, before, []), |all|);
  }

  /** An entry without a command holds the loop up for ever. */
  lemma {:induction false} NullHolds(s: Sweep, n: nat)
    requires s.bad < |s.table| && s.table[s.bad].cmd == null
    ensures Rounds(s, n) == s
  {
    if n == 0 {
    } else {
      NullHolds(s, n - 1);
    }
  }

  lemma RoundsUnfold(s: Sweep, n: nat)
    requires s.bad < |s.table|
    ensures Rounds(s, n) == if n == 0 then s else Rounds(Round(s), n - 1)
  {}

  lemma GoesOnNext(s: Sweep, n: nat)
    requires s.bad < |s.table| && (n > 0 ==> GoesOn(Round(s), n - 1))
    ensures GoesOn(s, n)
  {
    RoundsUnfold(s, n);
  }

  /** The entry of a command is passed, and the entries after it are the ones ahead. */
  lemma RoundPasses(s: Sweep)
    requires s.bad < |s.table| && s.table[s.bad].cmd != null
    ensures Round(s).table[Round(s).bad..] == s.table[s.bad + 1..]
  {
    var e := s.table[s.bad];
    var left, rest := s.table[..s.bad], s.table[s.bad + 1..];
    assert s.table == left + ([e] + rest);
    TableAfter(left, e, rest, Round(s).table);
  }

  lemma NullIsLater(ahead: seq<Cmd>)
    requires !NoNull(ahead) && ahead[0].cmd != null
    ensures !NoNull(ahead[1..])
  {
    var j :| 0 <= j < |ahead| && ahead[j].cmd == null;
    assert ahead[1..][j - 1] == ahead[j];
  }

  lemma {:induction false} NullIsReached(ahead: seq<Cmd>, s: Sweep, n: nat)
    requires s.bad <= |s.table| && s.table[s.bad..] == ahead && !NoNull(ahead)
    ensures GoesOn(s, n)
    decreases n
  {
    assert s.table[s.bad] == ahead[0];
    if ahead[0].cmd == null {
      NullHolds(s, n);
    } else if n == 0 {
    } else {
      RoundPasses(s);
      NullIsLater(ahead);
      NullIsReached(ahead[1..], Round(s), n - 1);
      GoesOnNext(s, n);
    }
  }

  /** The loop ends exactly when no entry of the table is without a command. */
  lemma SweepEndsIffNoNull(all: seq<Cmd>, before: seq<Cb>)
    ensures SweepEnds(Sweep(all, 0, before, [])) <==> NoNull(all)
  {
    var s := Sweep(all, 0, before, []);
    if NoNull(all) {
      SweepIsInTableOrder(all, before);
      assert !GoesOn(s, |all|);
    } else {
      assert all[0..] == all;
      forall n: nat ensures GoesOn(s, n) {
        NullIsReached(all, s, n);
      }
    }
  }

  /** The entries still ahead are for the pending commands, each there once and under its id. */
  predicate Ahead(s: seq<Cmd>, pending: set<WifiCommand>)
    decreases |s|
  {
    if s == [] then pending == {}
    else
      && s[0].cmd != null && s[0].cmd in pending && s[0].id == s[0].cmd.id
      && Ahead(s[1..], pending - {s[0].cmd})
  }

  lemma AheadNext(s: Sweep, pending: set<WifiCommand>)
    requires s.bad < |s.table| && Ahead(s.table[s.bad..], pending)
    ensures var e := s.table[s.bad];
            && e.cmd != null && e.cmd in pending && e.id == e.cmd.id
            && Ahead(Round(s).table[Round(s).bad..], pending - {e.cmd})
  {
    assert s.table[s.bad..][0] == s.table[s.bad] && s.table[s.bad..][1..] == s.table[s.bad + 1..];
    RoundPasses(s);
  }

  /** Those not pending any more have lost one reference, and are freed if it was their last; the others have
      theirs. */
  ghost predicate LetGo(owned: set<WifiCommand>, pending: set<WifiCommand>, refs: map<WifiCommand, int>)
    requires owned == refs.Keys
    reads owned
  {
    forall c :: c in owned ==>
      if c in pending then c.refs == refs[c] > 0 && c.freed == 0
      else c.refs == refs[c] - 1 && c.freed == L.Bit(c.refs == 0)
  }

  /** The body of the loop. */
  method CancelNext(info: Info, badCommands: nat, log: seq<Act>) returns (badCommands': nat, log': seq<Act>)
    requires info.Valid() && badCommands < info.numCmd
    requires var e := info.Commands()[badCommands];
             e.cmd != null && e.id == e.cmd.id && e.cmd.refs > 0 && e.cmd.freed == 0
    modifies info, info.eventCb, info.cmd, info.Commands()[badCommands].cmd
    ensures info.Valid()
    ensures Sweep(info.Commands(), badCommands', info.Events(), log')
         == Round(Sweep(old(info.Commands()), badCommands, old(info.Events()), log))
    ensures var c := old(info.Commands())[badCommands].cmd;
            c.refs == old(c.refs) - 1 && c.freed == L.Bit(c.refs == 0)
  {
    ghost var s := Sweep(info.Commands(), badCommands, info.Events(), log);
    var numCmd := info.numCmd;
    badCommands' := badCommands;
    var cmd := info.cmd[badCommands].cmd;
    assert s.table[badCommands].cmd == cmd;
    Cancel(info, cmd);
    log' := log + [Cancelled(cmd)];
    if numCmd == info.numCmd {
      badCommands' := badCommands + 1;
    }
    cmd.ReleaseRef();
    log' := log' + [Released(cmd)];
    assert log' == log + ActsOn(s.table[badCommands]);
  }

  lemma LetGoNext(owned: set<WifiCommand>, pending: set<WifiCommand>, refs: map<WifiCommand, int>, c: WifiCommand)
    requires owned == refs.Keys && pending <= owned && c in pending
    requires forall d :: d in owned && d != c ==>
               if d in pending then d.refs == refs[d] > 0 && d.freed == 0
               else d.refs == refs[d] - 1 && d.freed == L.Bit(d.refs == 0)
    requires c.refs == refs[c] - 1 && c.freed == L.Bit(c.refs == 0)
    ensures LetGo(owned, pending - {c}, refs)
  {}

  lemma {:induction false} AheadHasNoNull(s: seq<Cmd>, pending: set<WifiCommand>)
    requires Ahead(s, pending)
    ensures NoNull(s)
    decreases |s|
  {
    if s == [] {
    } else {
      AheadHasNoNull(s[1..], pending - {s[0].cmd});
      forall i | 0 <= i < |s| ensures s[i].cmd != null {
        assert i > 0 ==> s[i] == s[1..][i - 1];
      }
    }
  }

  /** Every pending command is in one of the entries ahead, and no two are the same. */
  lemma {:induction false} AheadIsDistinct(s: seq<Cmd>, pending: set<WifiCommand>)
    requires Ahead(s, pending)
    ensures forall i :: 0 <= i < |s| ==> s[i].cmd in pending
    ensures forall i, j :: 0 <= i < j < |s| ==> s[i].cmd != s[j].cmd
    ensures forall c :: c in pending ==> exists i :: 0 <= i < |s| && s[i].cmd == c
    decreases |s|
  {
    if s == [] {
    } else {
      var rest := s[1..];
      AheadIsDistinct(rest, pending - {s[0].cmd});
      forall i | 0 < i < |s| ensures s[i] == rest[i - 1] {}
      forall c | c in pending ensures exists i :: 0 <= i < |s| && s[i].cmd == c {
        if c == s[0].cmd {
        } else {
          assert c in pending - {s[0].cmd};
          var i :| 0 <= i < |rest| && rest[i].cmd == c;
          assert s[i + 1].cmd == c;
        }
      }
    }
  }

  lemma SweepIsOnceEach(all: seq<Cmd>, before: seq<Cb>, owned: set<WifiCommand>, c: WifiCommand)
    requires Ahead(all, owned) && c in owned
    ensures CancelledThenReleased(Rounds(Sweep(all, 0, before, []), |all|).log, c)
  {
    AheadHasNoNull(all, owned);
    AheadIsDistinct(all, owned);
    SweepIsInTableOrder(all, before);
    var i :| 0 <= i < |all| && all[i].cmd == c;
    OnceInTurn(Rounds(Sweep(all, 0, before, []), |all|).log, all, i, c);
  }

  lemma SweepLeavesNothing(all: seq<Cmd>, before: seq<Cb>, owned: set<WifiCommand>)
    requires Ahead(all, owned)
    ensures var r := Rounds(Sweep(all, 0, before, []), |all|);
            && Swept(all, before, r) && InTurn(r.log, all) && (Backed(before, all) ==> r.events == [])
            && forall c :: c in owned ==> CancelledThenReleased(r.log, c)
  {
    AheadHasNoNull(all, owned);
    SweepIsInTableOrder(all, before);
    if Backed(before, all) {
      NoCallbackIsLeft(before, all);
    }
    forall c | c in owned ensures CancelledThenReleased(Rounds(Sweep(all, 0, before, []), |all|).log, c) {
      SweepIsOnceEach(all, before, owned, c);
    }
  }

  /** The commands still pending are those of the entries ahead, and every reference is accounted for. */
  ghost predicate Owing(s: Sweep, owned: set<WifiCommand>, pending: set<WifiCommand>, refs: map<WifiCommand, int>)
    requires s.bad <= |s.table| && owned == refs.Keys
    reads owned
  {
    Ahead(s.table[s.bad..], pending) && pending <= owned && LetGo(owned, pending, refs)
  }

  /** One round in place, with the accounts. */
  method SweepNext(info: Info, badCommands: nat, log: seq<Act>, ghost s: Sweep,
                   ghost owned: set<WifiCommand>, ghost pending: set<WifiCommand>, ghost refs: map<WifiCommand, int>)
    returns (badCommands': nat, log': seq<Act>, ghost s': Sweep, ghost pending': set<WifiCommand>)
    requires info.Valid() && badCommands < info.numCmd
    requires s == Sweep(info.Commands(), badCommands, info.Events(), log)
    requires owned == refs.Keys && Owing(s, owned, pending, refs)
    modifies info, info.eventCb, info.cmd, owned
    ensures info.Valid()
    ensures s' == Sweep(info.Commands(), badCommands', info.Events(), log') && badCommands' <= info.numCmd
    ensures Owing(s', owned, pending', refs)
    ensures info.numCmd - badCommands' == old(info.numCmd) - badCommands - 1
    ensures Rounds(s', info.numCmd - badCommands') == Rounds(s, old(info.numCmd) - badCommands)
  {
    ghost var e := s.table[badCommands];
    AheadNext(s, pending);
    RoundsUnfold(s, info.numCmd - badCommands);
    badCommands', log' := CancelNext(info, badCommands, log);
    LetGoNext(owned, pending, refs, e.cmd);
    s', pending' := Round(s), pending - {e.cmd};
  }

  /** The loop in place. The owned objects are the commands of the table, with these counts. */
  method SweepInPlace(info: Info, ghost owned: set<WifiCommand>, ghost refs: map<WifiCommand, int>)
    returns (log: seq<Act>)
    requires info.Valid() && Ahead(info.Commands(), owned)
    requires owned == refs.Keys && LetGo(owned, owned, refs)
    modifies info, info.eventCb, info.cmd, owned
    ensures info.Valid()
    ensures LetGo(owned, {}, refs)
    ensures Sweep(info.Commands(), |info.Commands()|, info.Events(), log)
         == Rounds(Sweep(old(info.Commands()), 0, old(info.Events()), []), |old(info.Commands())|)
  {
    ghost var s := Sweep(info.Commands(), 0, info.Events(), []);
    ghost var end, pending := Rounds(s, info.numCmd), owned;
    log := [];
    var badCommands := 0;
    assert s.table[0..] == s.table;
    while info.numCmd > badCommands
      invariant info.Valid() && 0 <= badCommands <= info.numCmd
      invariant s == Sweep(info.Commands(), badCommands, info.Events(), log)
      invariant Owing(s, owned, pending, refs)
      invariant Rounds(s, info.numCmd - badCommands) == end
      decreases info.numCmd - badCommands
    {
      badCommands, log, s, pending := SweepNext(info, badCommands, log, s, owned, pending, refs);
    }
  }

  /** Every command of the table is cancelled and let go, and no callback of theirs is left. */
  method CleanUp(info: Info, ghost owned: set<WifiCommand>, ghost refs: map<WifiCommand, int>) returns (log: seq<Act>)
    requires info.Valid() && Ahead(info.Commands(), owned)
    requires owned == refs.Keys && LetGo(owned, owned, refs)
    modifies info, info.eventCb, info.cmd, owned
    ensures info.Valid()
    ensures LetGo(owned, {}, refs)
    ensures Swept(old(info.Commands()), old(info.Events()),
                  Sweep(info.Commands(), |info.Commands()|, info.Events(), log))
    ensures InTurn(log, old(info.Commands()))
    ensures forall c :: c in owned ==> CancelledThenReleased(log, c)
    ensures Backed(old(info.Events()), old(info.Commands())) ==> info.Events() == []
  {
    SweepLeavesNothing(info.Commands(), info.Events(), owned);
    log := SweepInPlace(info, owned, refs);
  }
}
