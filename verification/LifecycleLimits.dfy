/** What the discipline of the callers is for: without each part of it, a run uses a freed command. */
module LifecycleLimits {
  import Bytes
  import opened HandlerTables
  import opened CommandLifecycle

  /** The parts of the discipline: an id is fresh, keys are not shared, and no start is cancelled before it returns. */
  datatype Rule = FreshIds | OwnKeys | NoEarlyCancel

  /** The step keeps every part of the discipline but this one; and an id that is not fresh is at least not
      outstanding. */
  predicate Otherwise(s: State, t: nat, step: Step, rule: Rule) {
    || Disciplined(s, t, step)
    || (rule == FreshIds && step.New? && GoodKind(step.kind) && NotOutstanding(s, step.id))
    || (rule == OwnKeys && step.RegisterHandler?)
    || (rule == NoEarlyCancel && step.BeginCancel?)
  }

  predicate AllOtherwise(s: State, moves: seq<Move>, rule: Rule)
    requires Follows(s, moves)
    decreases |moves|
  {
    moves != [] ==>
      && Otherwise(s, moves[0].thread, moves[0].step, rule)
      && AllOtherwise(Next(s, moves[0].thread, moves[0].step), moves[1..], rule)
  }

  /** A run from s that keeps the rest of the discipline uses a freed command. */
  ghost predicate GoesBad(s: State, rule: Rule) {
    exists moves: seq<Move> :: Follows(s, moves) && AllOtherwise(s, moves, rule) && End(s, moves).bad
  }

  predicate Leads(s: State, t: nat, step: Step, s': State, rule: Rule) {
    Typed(s) && Enabled(s, t, step) && Otherwise(s, t, step, rule) && Next(s, t, step) == s'
  }

  /** The same for a step that keeps the whole discipline. */
  predicate Goes(s: State, t: nat, step: Step, s': State) {
    Typed(s) && Enabled(s, t, step) && Disciplined(s, t, step) && Next(s, t, step) == s'
  }

  lemma BadAfterGoing(s: State, t: nat, step: Step, s': State, rule: Rule)
    requires Goes(s, t, step, s') && GoesBad(s', rule)
    ensures GoesBad(s, rule)
  {
    BadAfter(s, t, step, s', rule);
  }

  lemma BadAfter(s: State, t: nat, step: Step, s': State, rule: Rule)
    requires Leads(s, t, step, s', rule) && GoesBad(s', rule)
    ensures GoesBad(s, rule)
  {
    var rest :| Follows(s', rest) && AllOtherwise(s', rest, rule) && End(s', rest).bad;
    var moves := [Move(t, step)] + rest;
    assert moves[1..] == rest;
    assert Follows(s, moves) && AllOtherwise(s, moves, rule) && End(s, moves).bad;
  }

  lemma BadNow(s: State, rule: Rule)
    requires s.bad
    ensures GoesBad(s, rule)
  {
    assert Follows(s, []) && AllOtherwise(s, [], rule) && End(s, []).bad;
  }

  // ---------------------------------------------------------------- the states of the runs below

  const K := Vendor(GSCAN_EVENT_FULL_SCAN_RESULTS)
  const R := Vendor(RTT_EVENT_COMPLETE)

  /** A state of two threads and two places in each table. */
  function Now(heap: seq<Obj>, table: seq<CmdInfo<Ref>>, cbs: seq<CbInfo<Ref>>, a: Pc, b: Pc): State {
    State(heap, table, cbs, [a, b], 2, 2, false)
  }

  const BEGIN := Now([], [], [], Free, Free)

  lemma BeginIsInitial()
    ensures BEGIN == Initial(2, 2, 2)
  {
    assert Idle(2) == [Free] + ([Free] + Idle(0));
  }

  /** The first commands, as they are in the runs: live, in a handler, freed. */
  const A := Obj(1, FULL_SCAN, 1, 0, 0)
  const A_FREED := Obj(1, FULL_SCAN, 0, 1, 1)
  const B := Obj(2, FULL_SCAN, 1, 0, 0)
  const B_FREED := Obj(2, FULL_SCAN, 0, 1, 1)
  const RANGING := Obj(1, RTT, 1, 0, 0)
  const RANGING_HANDLED := Obj(1, RTT, 2, 0, 0)
  const RANGING_CANCELLED := Obj(1, RTT, 1, 0, 1)

  /** An event is dispatched to a command that has been freed. */
  lemma DeadDispatchGoesBad(s: State, o: Ref, rule: Rule)
    requires Typed(s) && |s.threads| > 0 && s.threads[0] == Free && o < |s.heap| && s.heap[o].freed > 0
    requires s.cbs == [CbInfo(K, 0, o)]
    ensures GoesBad(s, rule)
  {
    assert Queue(s.cbs, K)[0].arg == o;
    var s' := Next(s, 0, Dispatch(K));
    BadNow(s', rule);
    BadAfter(s, 0, Dispatch(K), s', rule);
  }

  // ---------------------------------------------------------------- a start up to its late result

  const STARTED_1 := Now([A], [], [], Created(0), Free)
  const STARTED_2 := Now([A], [CmdInfo(1, 0)], [], Early(0), Free)
  const STARTED_3 := Now([A], [CmdInfo(1, 0)], [], Registering(0, 0), Free)
  const STARTED_4 := Now([A], [CmdInfo(1, 0)], [CbInfo(K, 0, 0)], Late(0), Free)

  lemma Started1(rule: Rule)
    ensures Leads(BEGIN, 0, New(1, FULL_SCAN), STARTED_1, rule)
  {}

  lemma Started2(rule: Rule)
    ensures Leads(STARTED_1, 0, RegisterCmd, STARTED_2, rule)
  {}

  lemma Started3(rule: Rule)
    ensures Leads(STARTED_2, 0, EarlyResult(true, false), STARTED_3, rule)
  {}

  lemma Started4(rule: Rule)
    ensures Leads(STARTED_3, 0, RegisterHandler, STARTED_4, rule)
  {}

  lemma BadAfterStart(rule: Rule)
    requires GoesBad(STARTED_4, rule)
    ensures GoesBad(BEGIN, rule)
  {
    Started4(rule);
    BadAfter(STARTED_3, 0, RegisterHandler, STARTED_4, rule);
    Started3(rule);
    BadAfter(STARTED_2, 0, EarlyResult(true, false), STARTED_3, rule);
    Started2(rule);
    BadAfter(STARTED_1, 0, RegisterCmd, STARTED_2, rule);
    Started1(rule);
    BadAfter(BEGIN, 0, New(1, FULL_SCAN), STARTED_1, rule);
  }

  // ---------------------------------------------------------------- a cancel before the start has returned

  const CANCEL_1 := Now([A], [], [CbInfo(K, 0, 0)], Late(0), Cancelling(0, 0))
  const CANCEL_2 := Now([A], [], [], Late(0), DropRegistration(0))
  const CANCEL_3 := Now([A_FREED], [], [], Late(0), Free)
  const CANCEL_4 := Now([A_FREED], [], [], Free, Free).(bad := true)

  lemma Cancel1()
    ensures Leads(STARTED_4, 1, BeginCancel(1), CANCEL_1, NoEarlyCancel)
  {}

  lemma Cancel2()
    ensures Leads(CANCEL_1, 1, UnregisterCancelled, CANCEL_2, NoEarlyCancel)
  {}

  lemma Cancel3()
    ensures Leads(CANCEL_2, 1, Drop, CANCEL_3, NoEarlyCancel)
  {}

  lemma Cancel4()
    ensures Leads(CANCEL_3, 0, LateResult(true), CANCEL_4, NoEarlyCancel)
  {}

  /** The start uses its command after the cancel has freed it. */
  lemma CancelDuringStartGoesBad()
    ensures GoesBad(BEGIN, NoEarlyCancel)
  {
    BadNow(CANCEL_4, NoEarlyCancel);
    Cancel4();
    BadAfter(CANCEL_3, 0, LateResult(true), CANCEL_4, NoEarlyCancel);
    Cancel3();
    BadAfter(CANCEL_2, 1, Drop, CANCEL_3, NoEarlyCancel);
    Cancel2();
    BadAfter(CANCEL_1, 1, UnregisterCancelled, CANCEL_2, NoEarlyCancel);
    Cancel1();
    BadAfter(STARTED_4, 1, BeginCancel(1), CANCEL_1, NoEarlyCancel);
    BadAfterStart(NoEarlyCancel);
  }

  // ---------------------------------------------------------------- two registrations with the same key

  const SHARED_1 := Now([A], [CmdInfo(1, 0)], [CbInfo(K, 0, 0)], Free, Free)
  const SHARED_2 := Now([A, B], [CmdInfo(1, 0)], [CbInfo(K, 0, 0)], Free, Created(1))
  const SHARED_3 := Now([A, B], [CmdInfo(1, 0), CmdInfo(2, 1)], [CbInfo(K, 0, 0)], Free, Early(1))
  const SHARED_4 := Now([A, B], [CmdInfo(1, 0), CmdInfo(2, 1)], [CbInfo(K, 0, 0)], Free, Registering(1, 0))
  const SHARED_5 := Now([A, B], [CmdInfo(1, 0), CmdInfo(2, 1)], [CbInfo(K, 0, 0), CbInfo(K, 0, 1)], Free, Late(1))
  const SHARED_6 := SHARED_5.(threads := [Free, FailUnregister(1, 0)])
  const SHARED_7 := Now([A, B], [CmdInfo(1, 0), CmdInfo(2, 1)], [CbInfo(K, 0, 1)], Free, FailCommand(1))
  const SHARED_8 := Now([A, B], [CmdInfo(1, 0)], [CbInfo(K, 0, 1)], Free, DropRegistration(1))
  const SHARED_9 := Now([A, B_FREED], [CmdInfo(1, 0)], [CbInfo(K, 0, 1)], Free, Free)

  lemma Shared1()
    ensures Leads(STARTED_4, 0, LateResult(true), SHARED_1, OwnKeys)
  {}

  lemma Shared2()
    ensures Leads(SHARED_1, 1, New(2, FULL_SCAN), SHARED_2, OwnKeys)
  {}

  lemma Shared3()
    ensures Leads(SHARED_2, 1, RegisterCmd, SHARED_3, OwnKeys)
  {}

  lemma Shared4()
    ensures Leads(SHARED_3, 1, EarlyResult(true, false), SHARED_4, OwnKeys)
  {}

  lemma Shared5()
    ensures Leads(SHARED_4, 1, RegisterHandler, SHARED_5, OwnKeys)
  {}

  lemma Shared6()
    ensures Leads(SHARED_5, 1, LateResult(false), SHARED_6, OwnKeys)
  {}

  lemma Shared7()
    ensures Leads(SHARED_6, 1, UnregisterFailed, SHARED_7, OwnKeys)
  {}

  lemma Shared8()
    ensures Leads(SHARED_7, 1, UnregisterFailedCmd, SHARED_8, OwnKeys)
  {}

  lemma Shared9()
    ensures Leads(SHARED_8, 1, Drop, SHARED_9, OwnKeys)
  {}

  /** A second command registers for the same event and its start fails: it removes the callback of the first, its
      own stays behind, and the next event is dispatched to it after it has been freed. */
  lemma SharedKeyGoesBad()
    ensures GoesBad(BEGIN, OwnKeys)
  {
    DeadDispatchGoesBad(SHARED_9, 1, OwnKeys);
    Shared9();
    BadAfter(SHARED_8, 1, Drop, SHARED_9, OwnKeys);
    Shared8();
    BadAfter(SHARED_7, 1, UnregisterFailedCmd, SHARED_8, OwnKeys);
    Shared7();
    BadAfter(SHARED_6, 1, UnregisterFailed, SHARED_7, OwnKeys);
    Shared6();
    BadAfter(SHARED_5, 1, LateResult(false), SHARED_6, OwnKeys);
    Shared5();
    BadAfter(SHARED_4, 1, RegisterHandler, SHARED_5, OwnKeys);
    Shared4();
    BadAfter(SHARED_3, 1, EarlyResult(true, false), SHARED_4, OwnKeys);
    Shared3();
    BadAfter(SHARED_2, 1, RegisterCmd, SHARED_3, OwnKeys);
    Shared2();
    BadAfter(SHARED_1, 1, New(2, FULL_SCAN), SHARED_2, OwnKeys);
    Shared1();
    BadAfter(STARTED_4, 0, LateResult(true), SHARED_1, OwnKeys);
    BadAfterStart(OwnKeys);
  }

  // ---------------------------------------------------------------- an id that is used again too early

  const REUSED_1 := Now([RANGING], [], [], Created(0), Free)
  const REUSED_2 := Now([RANGING], [CmdInfo(1, 0)], [], Early(0), Free)
  const REUSED_3 := Now([RANGING], [CmdInfo(1, 0)], [], Registering(0, 0), Free)
  const REUSED_4 := Now([RANGING], [CmdInfo(1, 0)], [CbInfo(R, 0, 0)], Free, Free)
  const REUSED_5 := Now([RANGING_HANDLED], [CmdInfo(1, 0)], [CbInfo(R, 0, 0)], Free, InHandler(0))
  const REUSED_6 := Now([RANGING_HANDLED], [], [CbInfo(R, 0, 0)], Cancelling(0, 0), InHandler(0))
  const REUSED_7 := Now([RANGING_HANDLED], [], [], DropRegistration(0), InHandler(0))
  const REUSED_8 := Now([RANGING_CANCELLED], [], [], Free, InHandler(0))
  const REUSED_9 := Now([RANGING_CANCELLED, A], [], [], Created(1), InHandler(0))
  const REUSED_10 := Now([RANGING_CANCELLED, A], [CmdInfo(1, 1)], [], Early(1), InHandler(0))
  const REUSED_11 := Now([RANGING_CANCELLED, A], [CmdInfo(1, 1)], [], Registering(1, 0), InHandler(0))
  const REUSED_12 := Now([RANGING_CANCELLED, A], [CmdInfo(1, 1)], [CbInfo(K, 0, 1)], Late(1), InHandler(0))
  const REUSED_13 := Now([RANGING_CANCELLED, A], [CmdInfo(1, 1)], [CbInfo(K, 0, 1)], Free, InHandler(0))
  const REUSED_14 := Now([RANGING_CANCELLED, A], [CmdInfo(1, 1)], [CbInfo(K, 0, 1)], Free, RetireHandler(0))
  const REUSED_15 := Now([RANGING_CANCELLED, A], [CmdInfo(1, 1)], [CbInfo(K, 0, 1)], Free, RetireCommand(0))
  const REUSED_16 := Now([RANGING_CANCELLED, A], [], [CbInfo(K, 0, 1)], Free, RetireDrop(0, Bytes.Some(1)))
  const REUSED_17 := Now([RANGING_CANCELLED, A_FREED], [], [CbInfo(K, 0, 1)], Free, Signal(0))

  lemma Reused1()
    ensures Goes(BEGIN, 0, New(1, RTT), REUSED_1)
  {}

  lemma Reused2()
    ensures Goes(REUSED_1, 0, RegisterCmd, REUSED_2)
  {}

  lemma Reused3()
    ensures Goes(REUSED_2, 0, EarlyResult(true, false), REUSED_3)
  {}

  lemma Reused4()
    ensures Goes(REUSED_3, 0, RegisterHandler, REUSED_4)
  {}

  lemma Reused5()
    ensures Goes(REUSED_4, 1, Dispatch(R), REUSED_5)
  {}

  lemma Reused6()
    ensures Goes(REUSED_5, 0, BeginCancel(1), REUSED_6)
  {}

  lemma Reused7()
    ensures Goes(REUSED_6, 0, UnregisterCancelled, REUSED_7)
  {}

  lemma Reused8()
    ensures Goes(REUSED_7, 0, Drop, REUSED_8)
  {}

  lemma Reused9()
    ensures Leads(REUSED_8, 0, New(1, FULL_SCAN), REUSED_9, FreshIds)
  {}

  lemma Reused10()
    ensures Leads(REUSED_9, 0, RegisterCmd, REUSED_10, FreshIds)
  {}

  lemma Reused11()
    ensures Leads(REUSED_10, 0, EarlyResult(true, false), REUSED_11, FreshIds)
  {}

  lemma Reused12()
    ensures Leads(REUSED_11, 0, RegisterHandler, REUSED_12, FreshIds)
  {}

  lemma Reused13()
    ensures Leads(REUSED_12, 0, LateResult(true), REUSED_13, FreshIds)
  {}

  lemma Reused14()
    ensures Leads(REUSED_13, 1, Handle(true), REUSED_14, FreshIds)
  {}

  lemma Reused15()
    ensures Leads(REUSED_14, 1, RetireUnregister, REUSED_15, FreshIds)
  {
    assert RemoveKey(REUSED_14.cbs, R) == [REUSED_14.cbs[0]] + RemoveKey(REUSED_14.cbs[1..], R);
  }

  lemma Reused16()
    ensures Leads(REUSED_15, 1, RetireTake, REUSED_16, FreshIds)
  {}

  lemma Reused17()
    ensures Leads(REUSED_16, 1, RetireRelease, REUSED_17, FreshIds)
  {}

  /** A ranging command is cancelled while an event is with it; its id, no longer outstanding, is given to another
      command; then it completes in its handler, retires and frees the other command instead, and the callback of that
      one stays behind. */
  lemma ReusedIdGoesBad()
    ensures GoesBad(BEGIN, FreshIds)
  {
    DeadDispatchGoesBad(REUSED_17, 1, FreshIds);
    Reused17();
    BadAfter(REUSED_16, 1, RetireRelease, REUSED_17, FreshIds);
    Reused16();
    BadAfter(REUSED_15, 1, RetireTake, REUSED_16, FreshIds);
    Reused15();
    BadAfter(REUSED_14, 1, RetireUnregister, REUSED_15, FreshIds);
    Reused14();
    BadAfter(REUSED_13, 1, Handle(true), REUSED_14, FreshIds);
    Reused13();
    BadAfter(REUSED_12, 0, LateResult(true), REUSED_13, FreshIds);
    Reused12();
    BadAfter(REUSED_11, 0, RegisterHandler, REUSED_12, FreshIds);
    Reused11();
    BadAfter(REUSED_10, 0, EarlyResult(true, false), REUSED_11, FreshIds);
    Reused10();
    BadAfter(REUSED_9, 0, RegisterCmd, REUSED_10, FreshIds);
    Reused9();
    BadAfter(REUSED_8, 0, New(1, FULL_SCAN), REUSED_9, FreshIds);
    Reused8();
    BadAfterGoing(REUSED_7, 0, Drop, REUSED_8, FreshIds);
    Reused7();
    BadAfterGoing(REUSED_6, 0, UnregisterCancelled, REUSED_7, FreshIds);
    Reused6();
    BadAfterGoing(REUSED_5, 0, BeginCancel(1), REUSED_6, FreshIds);
    Reused5();
    BadAfterGoing(REUSED_4, 1, Dispatch(R), REUSED_5, FreshIds);
    Reused4();
    BadAfterGoing(REUSED_3, 0, RegisterHandler, REUSED_4, FreshIds);
    Reused3();
    BadAfterGoing(REUSED_2, 0, EarlyResult(true, false), REUSED_3, FreshIds);
    Reused2();
    BadAfterGoing(REUSED_1, 0, RegisterCmd, REUSED_2, FreshIds);
    Reused1();
    BadAfterGoing(BEGIN, 0, New(1, RTT), REUSED_1, FreshIds);
  }

  /** Without any one part of the discipline, and with all the rest of it, a run of two threads uses a freed command;
      that ids are unique among the commands outstanding is not enough. */
  lemma EveryRuleIsNeeded(rule: Rule)
    ensures GoesBad(Initial(2, 2, 2), rule)
  {
    BeginIsInitial();
    match rule
    case FreshIds => ReusedIdGoesBad();
    case OwnKeys => SharedKeyGoesBad();
    case NoEarlyCancel => CancelDuringStartGoesBad();
  }

  // ---------------------------------------------------------------- a callback that goes with another command

  const RANGING_2 := Obj(2, RTT, 1, 0, 0)
  const LOST_1 := Now([RANGING_CANCELLED, RANGING_2], [], [], Created(1), InHandler(0))
  const LOST_2 := Now([RANGING_CANCELLED, RANGING_2], [CmdInfo(2, 1)], [], Early(1), InHandler(0))
  const LOST_3 := Now([RANGING_CANCELLED, RANGING_2], [CmdInfo(2, 1)], [], Registering(1, 0), InHandler(0))
  const LOST_4 := Now([RANGING_CANCELLED, RANGING_2], [CmdInfo(2, 1)], [CbInfo(R, 0, 1)], Free, InHandler(0))
  const LOST_5 := Now([RANGING_CANCELLED, RANGING_2], [CmdInfo(2, 1)], [CbInfo(R, 0, 1)], Free, RetireHandler(0))
  const LOST_6 := Now([RANGING_CANCELLED, RANGING_2], [CmdInfo(2, 1)], [], Free, RetireCommand(0))

  lemma Lost1()
    ensures Goes(REUSED_8, 0, New(2, RTT), LOST_1)
  {}

  lemma Lost2()
    ensures Goes(LOST_1, 0, RegisterCmd, LOST_2)
  {}

  lemma Lost3()
    ensures Goes(LOST_2, 0, EarlyResult(true, false), LOST_3)
  {}

  lemma Lost4()
    ensures Goes(LOST_3, 0, RegisterHandler, LOST_4)
  {}

  lemma Lost5()
    ensures Goes(LOST_4, 1, Handle(true), LOST_5)
  {}

  lemma Lost6()
    ensures Goes(LOST_5, 1, RetireUnregister, LOST_6)
  {}

  /** A run that keeps the whole discipline leads from one state to the other. */
  ghost predicate Reaches(s: State, end: State) {
    exists moves: seq<Move> :: Follows(s, moves) && AllDisciplined(s, moves) && End(s, moves) == end
  }

  lemma ReachesItself(s: State)
    ensures Reaches(s, s)
  {
    assert Follows(s, []) && AllDisciplined(s, []) && End(s, []) == s;
  }

  lemma ReachesAfter(s: State, t: nat, step: Step, s': State, end: State)
    requires Goes(s, t, step, s') && Reaches(s', end)
    ensures Reaches(s, end)
  {
    var rest :| Follows(s', rest) && AllDisciplined(s', rest) && End(s', rest) == end;
    var moves := [Move(t, step)] + rest;
    assert moves[1..] == rest;
    assert Follows(s, moves) && AllDisciplined(s, moves) && End(s, moves) == end;
  }

  /** A ranging command is cancelled while an event is with it; another is started; then the first completes in its
      handler and removes the callback of the second, which is in the table, alive, and hears nothing any more. */
  lemma CallbackOfAnotherGoes()
    ensures Reaches(Initial(2, 2, 2), LOST_6)
  {
    BeginIsInitial();
    ReachesItself(LOST_6);
    Lost6();
    ReachesAfter(LOST_5, 1, RetireUnregister, LOST_6, LOST_6);
    Lost5();
    ReachesAfter(LOST_4, 1, Handle(true), LOST_5, LOST_6);
    Lost4();
    ReachesAfter(LOST_3, 0, RegisterHandler, LOST_4, LOST_6);
    Lost3();
    ReachesAfter(LOST_2, 0, EarlyResult(true, false), LOST_3, LOST_6);
    Lost2();
    ReachesAfter(LOST_1, 0, RegisterCmd, LOST_2, LOST_6);
    Lost1();
    ReachesAfter(REUSED_8, 0, New(2, RTT), LOST_1, LOST_6);
    ReachedBefore();
  }

  lemma ReachedBefore()
    requires Reaches(REUSED_8, LOST_6)
    ensures Reaches(BEGIN, LOST_6)
  {
    Reused8();
    ReachesAfter(REUSED_7, 0, Drop, REUSED_8, LOST_6);
    Reused7();
    ReachesAfter(REUSED_6, 0, UnregisterCancelled, REUSED_7, LOST_6);
    Reused6();
    ReachesAfter(REUSED_5, 0, BeginCancel(1), REUSED_6, LOST_6);
    Reused5();
    ReachesAfter(REUSED_4, 1, Dispatch(R), REUSED_5, LOST_6);
    Reused4();
    ReachesAfter(REUSED_3, 0, RegisterHandler, REUSED_4, LOST_6);
    Reused3();
    ReachesAfter(REUSED_2, 0, EarlyResult(true, false), REUSED_3, LOST_6);
    Reused2();
    ReachesAfter(REUSED_1, 0, RegisterCmd, REUSED_2, LOST_6);
    Reused1();
    ReachesAfter(BEGIN, 0, New(1, RTT), REUSED_1, LOST_6);
  }

  // ---------------------------------------------------------------- a hotlist that fails early

  const FOUND := Vendor(GSCAN_EVENT_HOTLIST_RESULTS_FOUND)
  const LOST := Vendor(GSCAN_EVENT_HOTLIST_RESULTS_LOST)
  const HOT := Obj(1, HOTLIST, 1, 0, 0)
  const HOT_2 := Obj(2, HOTLIST, 1, 0, 0)
  const BOTH := [CbInfo(FOUND, 0, 0), CbInfo(LOST, 0, 0)]
  const HOT_1 := Now([HOT], [], [], Created(0), Free)
  const HOT_LISTED := Now([HOT], [CmdInfo(1, 0)], [], Early(0), Free)
  const HOT_FIRST := Now([HOT], [CmdInfo(1, 0)], [], Registering(0, 0), Free)
  const HOT_SECOND := Now([HOT], [CmdInfo(1, 0)], [CbInfo(FOUND, 0, 0)], Registering(0, 1), Free)
  const HOT_LATE := Now([HOT], [CmdInfo(1, 0)], BOTH, Late(0), Free)
  const HOT_ON := Now([HOT], [CmdInfo(1, 0)], BOTH, Free, Free)
  const HOT_OTHER := Now([HOT, HOT_2], [CmdInfo(1, 0)], BOTH, Created(1), Free)
  const HOT_OTHER_LISTED := Now([HOT, HOT_2], [CmdInfo(1, 0), CmdInfo(2, 1)], BOTH, Early(1), Free)
  const HOT_OTHER_FAILS := Now([HOT, HOT_2], [CmdInfo(1, 0), CmdInfo(2, 1)], BOTH, FailUnregister(1, 0), Free)
  const HOT_DEAF :=
    Now([HOT, HOT_2], [CmdInfo(1, 0), CmdInfo(2, 1)], [CbInfo(LOST, 0, 0)], FailUnregister(1, 1), Free)

  lemma Hot1()
    ensures Goes(BEGIN, 0, New(1, HOTLIST), HOT_1)
  {}

  lemma Hot2()
    ensures Goes(HOT_1, 0, RegisterCmd, HOT_LISTED)
  {}

  lemma Hot3()
    ensures Goes(HOT_LISTED, 0, EarlyResult(true, false), HOT_FIRST)
  {}

  lemma Hot4()
    ensures Goes(HOT_FIRST, 0, RegisterHandler, HOT_SECOND)
  {}

  lemma Hot5()
    ensures Goes(HOT_SECOND, 0, RegisterHandler, HOT_LATE)
  {}

  lemma Hot6()
    ensures Goes(HOT_LATE, 0, LateResult(true), HOT_ON)
  {}

  lemma Hot7()
    ensures Goes(HOT_ON, 0, New(2, HOTLIST), HOT_OTHER)
  {}

  lemma Hot8()
    ensures Goes(HOT_OTHER, 0, RegisterCmd, HOT_OTHER_LISTED)
  {}

  lemma Hot9()
    ensures Goes(HOT_OTHER_LISTED, 0, EarlyResult(false, true), HOT_OTHER_FAILS)
  {}

  lemma Hot10()
    ensures Goes(HOT_OTHER_FAILS, 0, UnregisterFailed, HOT_DEAF)
  {}

  /** A hotlist is on, and another fails before it has registered anything: the first callback it removes is one of
      the first hotlist's, which is not told of results any more. */
  lemma EarlyFailureRemovesAnothers()
    ensures Reaches(Initial(2, 2, 2), HOT_DEAF)
  {
    BeginIsInitial();
    ReachesItself(HOT_DEAF);
    Hot10();
    ReachesAfter(HOT_OTHER_FAILS, 0, UnregisterFailed, HOT_DEAF, HOT_DEAF);
    Hot9();
    ReachesAfter(HOT_OTHER_LISTED, 0, EarlyResult(false, true), HOT_OTHER_FAILS, HOT_DEAF);
    Hot8();
    ReachesAfter(HOT_OTHER, 0, RegisterCmd, HOT_OTHER_LISTED, HOT_DEAF);
    Hot7();
    ReachesAfter(HOT_ON, 0, New(2, HOTLIST), HOT_OTHER, HOT_DEAF);
    Hot6();
    ReachesAfter(HOT_LATE, 0, LateResult(true), HOT_ON, HOT_DEAF);
    Hot5();
    ReachesAfter(HOT_SECOND, 0, RegisterHandler, HOT_LATE, HOT_DEAF);
    Hot4();
    ReachesAfter(HOT_FIRST, 0, RegisterHandler, HOT_SECOND, HOT_DEAF);
    Hot3();
    ReachesAfter(HOT_LISTED, 0, EarlyResult(true, false), HOT_FIRST, HOT_DEAF);
    Hot2();
    ReachesAfter(HOT_1, 0, RegisterCmd, HOT_LISTED, HOT_DEAF);
    Hot1();
    ReachesAfter(BEGIN, 0, New(1, HOTLIST), HOT_1, HOT_DEAF);
  }
}
