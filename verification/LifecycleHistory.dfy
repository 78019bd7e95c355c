/** What has become of a command when every thread is idle again, told from the history of the run. */
module LifecycleHistory {
  import opened Bytes
  import opened HandlerTables
  import opened CommandLifecycle
  import opened CallbackKeeping

  /** The step puts an end to the command: there is no room for it in the table, its start fails, it is cancelled, or
      it retires because the event it handles completes it. */
  predicate Finishes(s: State, t: nat, step: Step, o: Ref) {
    && t < |s.threads| && o < |s.heap|
    && match step
       case RegisterCmd => s.threads[t] == Created(o) && |s.table| >= s.cmdCapacity
       case EarlyResult(ok, _) => s.threads[t] == Early(o) && !ok
       case LateResult(ok) => s.threads[t] == Late(o) && !ok
       case BeginCancel(id) => FindId(s.table, id) == Some(o)
       case Handle(completes) => s.threads[t] == InHandler(o) && s.heap[o].kind.selfRetires && completes
       case _ => false
  }

  predicate SomeFinishes(s: State, moves: seq<Move>, o: Ref)
    requires Follows(s, moves)
    decreases |moves|
  {
    && moves != []
    && (|| Finishes(s, moves[0].thread, moves[0].step, o)
        || SomeFinishes(Next(s, moves[0].thread, moves[0].step), moves[1..], o))
  }

  /** The thread is about to take the command out of the tables, or to drop its first reference. */
  predicate PutsAway(pc: Pc, o: Ref) {
    || ((pc.FailUnregister? || pc.FailCommand? || pc.DropRegistration? || pc.Cancelling? || pc.CancelCommand?
         || pc.RetireHandler? || pc.RetireCommand?) && pc.o == o)
    || (pc.RetireDrop? && pc.found == Some(o))
  }

  /** The first reference has been dropped, or a thread is about to drop it. */
  predicate Finished(s: State, o: Ref) {
    && o < |s.heap|
    && (s.heap[o].dropped > 0 || exists t :: 0 <= t < |s.threads| && PutsAway(s.threads[t], o))
  }

  lemma FinishedBy(s: State, t: nat, o: Ref)
    requires t < |s.threads| && o < |s.heap| && PutsAway(s.threads[t], o)
    ensures Finished(s, o)
  {}

  /** The thread that moves is the only one whose place changes, and no command is lost or gets its reference back. */
  lemma StepKeepsOthers(s: State, t: nat, step: Step)
    requires Inv(s) && Enabled(s, t, step)
    ensures |Next(s, t, step).threads| == |s.threads|
    ensures forall u :: 0 <= u < |s.threads| && u != t ==> Next(s, t, step).threads[u] == s.threads[u]
    ensures |s.heap| <= |Next(s, t, step).heap|
    ensures forall o :: 0 <= o < |s.heap| ==> Next(s, t, step).heap[o].dropped >= s.heap[o].dropped
  {
    if step.Dispatch? {
      QueueMembers(s.cbs, step.key);
    }
  }

  /** A thread that puts a command away goes on doing so until the reference is dropped; but a handler that retires
      it may find that somebody else has taken it. */
  lemma MoverPutsAway(s: State, t: nat, step: Step, o: Ref)
    requires Inv(s) && Enabled(s, t, step) && o < |s.heap| && PutsAway(s.threads[t], o) && !step.RetireTake?
    ensures PutsAway(Next(s, t, step).threads[t], o) || Next(s, t, step).heap[o].dropped > 0
  {}

  /** Whatever a handler that retires its command finds, the command is being put away by somebody. */
  lemma RetireTakePutsAway(s: State, t: nat, o: Ref)
    requires Inv(s) && Enabled(s, t, RetireTake) && s.threads[t] == RetireCommand(o)
    ensures Finished(Next(s, t, RetireTake), o)
  {
    var s' := Next(s, t, RetireTake);
    assert Accounted(s, o);
    if s.heap[o].dropped > 0 {
    } else if Entries(s.table, o) >= 1 {
      ListedIsFound(s, o);
      assert PutsAway(s'.threads[t], o);
    } else {
      CountWitness(s.threads, Owner, o);
      var u :| 0 <= u < |s.threads| && Plays(s.threads[u], Owner, o);
      CreatedIsUnheard(s, t, u, o);
      assert u != t && s'.threads[u] == s.threads[u];
      assert PutsAway(s'.threads[u], o);
    }
  }

  /** A command with an event in its handler is past its creation. */
  lemma CreatedIsUnheard(s: State, t: nat, u: nat, o: Ref)
    requires Inv(s) && t < |s.threads| && u < |s.threads| && Plays(s.threads[t], Flight, o)
    ensures s.threads[u] != Created(o)
  {
    CountAtLeast(s.threads, t, Flight, o);
  }

  lemma FinishedStays(s: State, t: nat, step: Step, o: Ref)
    requires Inv(s) && Enabled(s, t, step) && Finished(s, o)
    ensures Finished(Next(s, t, step), o)
  {
    var s' := Next(s, t, step);
    StepKeepsOthers(s, t, step);
    if s.heap[o].dropped > 0 {
      assert s'.heap[o].dropped >= s.heap[o].dropped;
    } else {
      var u :| 0 <= u < |s.threads| && PutsAway(s.threads[u], o);
      if u != t {
        FinishedBy(s', u, o);
      } else if step.RetireTake? {
        RetireTakePutsAway(s, t, o);
      } else {
        MoverPutsAway(s, t, step, o);
      }
    }
  }

  lemma FinishingFinishes(s: State, t: nat, step: Step, o: Ref)
    requires Inv(s) && Enabled(s, t, step) && Finishes(s, t, step, o)
    ensures Finished(Next(s, t, step), o)
  {
    StepKeepsOthers(s, t, step);
    assert PutsAway(Next(s, t, step).threads[t], o);
  }

  /** Nothing else puts a command away. */
  lemma OnlyFinishingFinishes(s: State, t: nat, step: Step, o: Ref)
    requires Inv(s) && Enabled(s, t, step) && o < |s.heap| && !Finished(s, o) && !Finishes(s, t, step, o)
    ensures !Finished(Next(s, t, step), o)
  {
    var s' := Next(s, t, step);
    StepKeepsOthers(s, t, step);
    assert !PutsAway(s.threads[t], o);
    MoverDoesNotPutAway(s, t, step, o, s');
    MoverDoesNotDrop(s, t, step, o, s');
    forall u | 0 <= u < |s'.threads| ensures !PutsAway(s'.threads[u], o) {
      if u != t {
        assert !PutsAway(s.threads[u], o);
      }
    }
  }

  lemma MoverDoesNotPutAway(s: State, t: nat, step: Step, o: Ref, s': State)
    requires Inv(s) && Enabled(s, t, step) && o < |s.heap| && s.heap[o].dropped == 0 && s' == Next(s, t, step)
    requires !PutsAway(s.threads[t], o) && !Finishes(s, t, step, o)
    requires t < |s'.threads|
    ensures !PutsAway(s'.threads[t], o)
  {
    if s.threads[t].Free? {
      IdleDoesNotPutAway(s, t, step, o, s');
    } else if step.RetireTake? {
      RetireTakeFindsItself(s, t, o);
    }
  }

  lemma IdleDoesNotPutAway(s: State, t: nat, step: Step, o: Ref, s': State)
    requires Inv(s) && Enabled(s, t, step) && o < |s.heap| && s' == Next(s, t, step) && s.threads[t].Free?
    requires !Finishes(s, t, step, o) && t < |s'.threads|
    ensures !PutsAway(s'.threads[t], o)
  {
    if step.Dispatch? {
      QueueMembers(s.cbs, step.key);
    }
  }

  lemma RetireTakeFindsItself(s: State, t: nat, o: Ref)
    requires Inv(s) && Enabled(s, t, RetireTake) && !PutsAway(s.threads[t], o)
    ensures FindId(s.table, s.heap[s.threads[t].o].id) != Some(o)
  {
    StepKeepsInv(s, t, RetireTake);
    var s' := Next(s, t, RetireTake);
    assert s'.threads[t] == RetireDrop(s.threads[t].o, FindId(s.table, s.heap[s.threads[t].o].id));
    assert FoundItself(s');
  }

  lemma MoverDoesNotDrop(s: State, t: nat, step: Step, o: Ref, s': State)
    requires Inv(s) && Enabled(s, t, step) && o < |s.heap| && !PutsAway(s.threads[t], o) && s' == Next(s, t, step)
    requires o < |s'.heap|
    ensures s'.heap[o].dropped == s.heap[o].dropped
  {
    if step.Dispatch? {
      QueueMembers(s.cbs, step.key);
    }
  }

  // ---------------------------------------------------------------- runs

  lemma FinishedAtOnce(s: State, t: nat, step: Step, o: Ref)
    requires Inv(s) && Enabled(s, t, step) && o < |s.heap|
    ensures Finished(Next(s, t, step), o) <==> Finished(s, o) || Finishes(s, t, step, o)
  {
    if Finished(s, o) {
      FinishedStays(s, t, step, o);
    } else if Finishes(s, t, step, o) {
      FinishingFinishes(s, t, step, o);
    } else {
      OnlyFinishingFinishes(s, t, step, o);
    }
  }

  lemma NewIsNotFinished(s: State, t: nat, step: Step)
    requires Inv(s) && Enabled(s, t, step) && |Next(s, t, step).heap| > |s.heap|
    ensures |Next(s, t, step).heap| == |s.heap| + 1 && !Finished(Next(s, t, step), |s.heap|)
    ensures !Finishes(s, t, step, |s.heap|)
  {
    var s', o := Next(s, t, step), |s.heap|;
    StepRevivesNone(s, t, step);
    forall u | 0 <= u < |s'.threads| ensures !PutsAway(s'.threads[u], o) {
      if u != t {
        assert TypedPc(s, s.threads[u]);
      }
    }
  }

  /** A command that the run creates, or that was not finished before, is finished exactly when a step finishes it. */
  lemma {:induction false} FinishedIffSomeFinishes(s: State, moves: seq<Move>, o: Ref)
    requires Inv(s) && Follows(s, moves) && AllDisciplined(s, moves) && o < |End(s, moves).heap|
    requires !Finished(s, o)
    ensures Finished(End(s, moves), o) <==> SomeFinishes(s, moves, o)
    decreases |moves|
  {
    if moves == [] {
    } else {
      var t, step := moves[0].thread, moves[0].step;
      var s' := Next(s, t, step);
      StepKeepsInv(s, t, step);
      if o < |s.heap| {
        FinishedAtOnce(s, t, step, o);
      } else if o < |s'.heap| {
        NewIsNotFinished(s, t, step);
      }
      if Finished(s', o) {
        FinishedForGood(s', moves[1..], o);
      } else {
        FinishedIffSomeFinishes(s', moves[1..], o);
      }
    }
  }

  lemma {:induction false} FinishedForGood(s: State, moves: seq<Move>, o: Ref)
    requires Inv(s) && Follows(s, moves) && AllDisciplined(s, moves) && Finished(s, o)
    ensures Finished(End(s, moves), o)
    decreases |moves|
  {
    if moves == [] {
    } else {
      var t, step := moves[0].thread, moves[0].step;
      FinishedStays(s, t, step, o);
      StepKeepsInv(s, t, step);
      FinishedForGood(Next(s, t, step), moves[1..], o);
    }
  }

  predicate AllIdle(s: State) {
    forall t :: 0 <= t < |s.threads| ==> s.threads[t].Free?
  }

  lemma {:induction false} IdleCountsNothing(threads: seq<Pc>, role: Role, o: Ref)
    requires forall t :: 0 <= t < |threads| ==> threads[t].Free?
    ensures Count(threads, role, o) == 0
  {
    if threads == [] {
    } else {
      forall t | 0 <= t < |threads[1..]| ensures threads[1..][t].Free? {
        assert threads[1..][t] == threads[t + 1];
      }
      IdleCountsNothing(threads[1..], role, o);
    }
  }

  /** The command is in the table, once, with its one reference. */
  predicate Listed(s: State, o: Ref)
    requires o < |s.heap|
  {
    Entries(s.table, o) == 1 && s.heap[o].refs == 1 && s.heap[o].freed == 0
  }

  /** It has been freed, once, and neither table knows it. */
  predicate Gone(s: State, o: Ref)
    requires o < |s.heap|
  {
    && s.heap[o].refs == 0 && s.heap[o].freed == 1
    && Entries(s.table, o) == 0
    && forall e :: e in s.cbs ==> e.arg != o
  }

  lemma IdleIsListedOrGone(s: State, o: Ref)
    requires Inv(s) && AllIdle(s) && o < |s.heap|
    ensures if Finished(s, o) then Gone(s, o) else Listed(s, o)
  {
    assert Accounted(s, o);
    IdleCountsNothing(s.threads, Owner, o);
    IdleCountsNothing(s.threads, Flight, o);
  }

  /** Over every disciplined run of any number of threads, when all are idle again, a command that was created is freed
      once and gone from both tables exactly when there was no room for it, its start failed, it was cancelled, or an
      event completed it; and otherwise it is in the table, with its one reference. */
  lemma GoneIffFinished(threads: nat, cbCapacity: nat, cmdCapacity: nat, moves: seq<Move>, o: Ref)
    requires var s := Initial(threads, cbCapacity, cmdCapacity);
             && Follows(s, moves) && AllDisciplined(s, moves)
             && AllIdle(End(s, moves)) && o < |End(s, moves).heap|
    ensures var s := Initial(threads, cbCapacity, cmdCapacity);
            if SomeFinishes(s, moves, o) then Gone(End(s, moves), o) else Listed(End(s, moves), o)
  {
    var s := Initial(threads, cbCapacity, cmdCapacity);
    InitialInv(threads, cbCapacity, cmdCapacity);
    FinishedIffSomeFinishes(s, moves, o);
    RunKeepsInv(s, moves);
    IdleIsListedOrGone(End(s, moves), o);
  }

  // ---------------------------------------------------------------- the callbacks of what is in the table

  /** The first n callbacks of the command are registered. */
  predicate HearsFirst(s: State, o: Ref, n: nat)
    requires o < |s.heap| && n <= |s.heap[o].kind.keys|
  {
    forall j :: 0 <= j < n ==> CbInfo(s.heap[o].kind.keys[j], 0, o) in s.cbs
  }

  /** The thread has not registered all callbacks of the command it starts. */
  predicate StillRegisters(pc: Pc, o: Ref) {
    (pc.Created? || pc.Early? || pc.Registering?) && pc.o == o
  }

  /** As long as the command is not finished, each callback is there that its start has come to. */
  predicate Hears(s: State, o: Ref)
    requires Typed(s) && o < |s.heap|
  {
    !Finished(s, o) ==>
      && (forall t :: 0 <= t < |s.threads| && s.threads[t].Registering? && s.threads[t].o == o ==>
            HearsFirst(s, o, s.threads[t].i))
      && ((forall t :: 0 <= t < |s.threads| ==> !StillRegisters(s.threads[t], o)) ==>
            HearsFirst(s, o, |s.heap[o].kind.keys|))
  }

  predicate HasRoom(s: State, step: Step) { step.RegisterHandler? ==> |s.cbs| < s.cbCapacity }

  lemma CallbacksOfUnfinishedStay(s: State, t: nat, step: Step, o: Ref, n: nat)
    requires Inv(s) && Apart(s) && Enabled(s, t, step) && KeepsApart(s, step)
    requires o < |s.heap| && n <= |s.heap[o].kind.keys| && !Finished(s, o) && HearsFirst(s, o, n)
    ensures NoneRevived(s, Next(s, t, step)) && HearsFirst(Next(s, t, step), o, n)
  {
    StepRevivesNone(s, t, step);
    forall j | 0 <= j < n ensures CbInfo(s.heap[o].kind.keys[j], 0, o) in Next(s, t, step).cbs {
      var e := CbInfo(s.heap[o].kind.keys[j], 0, o);
      OnlyItsOwnGo(s, t, step, e);
    }
  }

  /** Where a thread stands that registers the callbacks of o, or has just stopped to. */
  lemma RegistersInTurn(s: State, t: nat, step: Step, o: Ref, s': State)
    requires Inv(s) && Enabled(s, t, step) && HasRoom(s, step) && s' == Next(s, t, step)
    requires t < |s'.threads| && o < |s.heap| && !Finishes(s, t, step, o)
    ensures s'.threads[t].Registering? && s'.threads[t].o == o ==>
              s'.threads[t].i == 0 || (step.RegisterHandler? && s.threads[t] == Registering(o, s'.threads[t].i - 1))
    ensures StillRegisters(s.threads[t], o) && !StillRegisters(s'.threads[t], o) ==>
              step.RegisterHandler? && s.threads[t] == Registering(o, |s.heap[o].kind.keys| - 1)
    ensures step.RegisterHandler? ==>
              CbInfo(s.heap[s.threads[t].o].kind.keys[s.threads[t].i], 0, s.threads[t].o) in s'.cbs
  {}

  lemma HearsStays(s: State, t: nat, step: Step, o: Ref)
    requires Inv(s) && Apart(s) && Enabled(s, t, step) && Disciplined(s, t, step) && KeepsApart(s, step)
    requires HasRoom(s, step) && o < |s.heap| && Hears(s, o)
    ensures NoneRevived(s, Next(s, t, step)) && Typed(Next(s, t, step)) && Hears(Next(s, t, step), o)
  {
    var s' := Next(s, t, step);
    StepKeepsInv(s, t, step);
    StepRevivesNone(s, t, step);
    StepKeepsOthers(s, t, step);
    FinishedAtOnce(s, t, step, o);
    if !Finished(s', o) {
      RegistersInTurn(s, t, step, o, s');
      forall u | 0 <= u < |s'.threads| && s'.threads[u].Registering? && s'.threads[u].o == o
        ensures HearsFirst(s', o, s'.threads[u].i)
      {
        HearsInTurn(s, t, step, o, u);
      }
      if forall u :: 0 <= u < |s'.threads| ==> !StillRegisters(s'.threads[u], o) {
        HearsAllInTurn(s, t, step, o);
      }
    }
  }

  lemma HearsInTurn(s: State, t: nat, step: Step, o: Ref, u: nat)
    requires Inv(s) && Apart(s) && Enabled(s, t, step) && KeepsApart(s, step) && HasRoom(s, step)
    requires o < |s.heap| && Hears(s, o) && !Finished(s, o) && !Finishes(s, t, step, o)
    requires Typed(Next(s, t, step)) && NoneRevived(s, Next(s, t, step))
    requires u < |Next(s, t, step).threads| == |s.threads| && (u != t ==> Next(s, t, step).threads[u] == s.threads[u])
    requires Next(s, t, step).threads[u].Registering? && Next(s, t, step).threads[u].o == o
    ensures HearsFirst(Next(s, t, step), o, Next(s, t, step).threads[u].i)
  {
    var s' := Next(s, t, step);
    var n := s'.threads[u].i;
    if u != t {
      CallbacksOfUnfinishedStay(s, t, step, o, n);
    } else {
      RegistersInTurn(s, t, step, o, s');
      if n > 0 {
        CallbacksOfUnfinishedStay(s, t, step, o, n - 1);
      }
    }
  }

  lemma HearsAllInTurn(s: State, t: nat, step: Step, o: Ref)
    requires Inv(s) && Apart(s) && Enabled(s, t, step) && KeepsApart(s, step) && HasRoom(s, step)
    requires o < |s.heap| && Hears(s, o) && !Finished(s, o) && !Finishes(s, t, step, o)
    requires NoneRevived(s, Next(s, t, step)) && t < |Next(s, t, step).threads| == |s.threads|
    requires forall u :: 0 <= u < |s.threads| && u != t ==> Next(s, t, step).threads[u] == s.threads[u]
    requires forall u :: 0 <= u < |s.threads| ==> !StillRegisters(Next(s, t, step).threads[u], o)
    ensures HearsFirst(Next(s, t, step), o, |s.heap[o].kind.keys|)
  {
    var s', n := Next(s, t, step), |s.heap[o].kind.keys|;
    RegistersInTurn(s, t, step, o, s');
    if StillRegisters(s.threads[t], o) {
      CallbacksOfUnfinishedStay(s, t, step, o, n - 1);
    } else {
      forall u | 0 <= u < |s.threads| ensures !StillRegisters(s.threads[u], o) {
        assert u != t ==> s'.threads[u] == s.threads[u];
      }
      CallbacksOfUnfinishedStay(s, t, step, o, n);
    }
  }

  lemma NewHears(s: State, t: nat, step: Step)
    requires Inv(s) && Enabled(s, t, step) && Disciplined(s, t, step) && |Next(s, t, step).heap| > |s.heap|
    ensures Typed(Next(s, t, step)) && Hears(Next(s, t, step), |s.heap|)
  {
    var s', o := Next(s, t, step), |s.heap|;
    StepKeepsInv(s, t, step);
    StepRevivesNone(s, t, step);
    assert step.New? && s'.threads[t] == Created(o);
    assert StillRegisters(s'.threads[t], o);
    forall u | 0 <= u < |s'.threads| ensures !(s'.threads[u].Registering? && s'.threads[u].o == o) {
      if u != t {
        assert TypedPc(s, s.threads[u]);
      }
    }
  }

  predicate AllHaveRoom(s: State, moves: seq<Move>)
    requires Follows(s, moves)
    decreases |moves|
  {
    moves != [] ==>
      && HasRoom(s, moves[0].step)
      && AllHaveRoom(Next(s, moves[0].thread, moves[0].step), moves[1..])
  }

  lemma {:induction false} HearsOverRun(s: State, moves: seq<Move>, o: Ref)
    requires Inv(s) && Apart(s) && Follows(s, moves) && AllDisciplined(s, moves) && AllKeepApart(s, moves)
    requires AllHaveRoom(s, moves) && o < |End(s, moves).heap| && (o < |s.heap| ==> Hears(s, o))
    ensures Inv(End(s, moves)) && Hears(End(s, moves), o)
    decreases |moves|
  {
    if moves == [] {
    } else {
      var t, step := moves[0].thread, moves[0].step;
      StepKeepsInv(s, t, step);
      StepKeepsApart(s, t, step);
      StepRevivesNone(s, t, step);
      if o < |s.heap| {
        HearsStays(s, t, step, o);
      } else if o < |Next(s, t, step).heap| {
        NewHears(s, t, step);
      }
      HearsOverRun(Next(s, t, step), moves[1..], o);
    }
  }

  /** Over every such run in which commands are kept apart and the callback table is never full, each command that is
      in the table when all are idle again has a callback for every event of its kind. */
  lemma ListedHearAll(threads: nat, cbCapacity: nat, cmdCapacity: nat, moves: seq<Move>, o: Ref)
    requires var s := Initial(threads, cbCapacity, cmdCapacity);
             && Follows(s, moves) && AllDisciplined(s, moves) && AllKeepApart(s, moves) && AllHaveRoom(s, moves)
             && AllIdle(End(s, moves)) && o < |End(s, moves).heap| && Listed(End(s, moves), o)
    ensures var end := End(Initial(threads, cbCapacity, cmdCapacity), moves);
            forall k :: k in end.heap[o].kind.keys ==> CbInfo(k, 0, o) in end.cbs
  {
    var s := Initial(threads, cbCapacity, cmdCapacity);
    var end := End(s, moves);
    InitialInv(threads, cbCapacity, cmdCapacity);
    HearsOverRun(s, moves, o);
    IdleIsListedOrGone(end, o);
    assert HearsFirst(end, o, |end.heap[o].kind.keys|);
  }
}
