/** When a command that has been started keeps its callbacks, however the threads interleave. */
module CallbackKeeping {
  import opened Bytes
  import opened HandlerTables
  import opened CommandLifecycle

  /** The key whose callback the step removes, if it removes one. */
  function RemovedKey(s: State, t: nat, step: Step): Option<Key>
    requires Typed(s) && Enabled(s, t, step)
  {
    var pc := s.threads[t];
    match step
    case UnregisterFailed => Some(s.heap[pc.o].kind.removal[pc.i])
    case UnregisterCancelled => Some(s.heap[pc.o].kind.removal[pc.i])
    case RetireUnregister => Some(s.heap[pc.o].kind.keys[0])
    case RemoveCallback(key) => Some(key)
    case _ => None
  }

  lemma {:induction false} RemovesItsKey(cbs: seq<CbInfo<Ref>>, k: Key, e: CbInfo<Ref>)
    requires CommandLifecycle.OwnKeys(cbs) && e in cbs
    ensures e in RemoveKey(cbs, k) <==> e.key != k
  {
    RemovedKeyIsGone(cbs, k);
    if e.key != k {
      OtherKeyStays(cbs, k, e);
    }
  }

  lemma {:induction false} OtherKeyStays(cbs: seq<CbInfo<Ref>>, k: Key, e: CbInfo<Ref>)
    requires e in cbs && e.key != k
    ensures e in RemoveKey(cbs, k)
  {
    if cbs[0] == e || cbs[0].key == k {
    } else {
      OtherKeyStays(cbs[1..], k, e);
    }
  }

  /** A callback goes with a step exactly when the step removes its key. */
  lemma GoesIffKeyRemoved(s: State, t: nat, step: Step, e: CbInfo<Ref>)
    requires Inv(s) && Enabled(s, t, step) && e in s.cbs
    ensures e !in Next(s, t, step).cbs <==> RemovedKey(s, t, step) == Some(e.key)
  {
    var removed := RemovedKey(s, t, step);
    if removed.Some? {
      RemovesItsKey(s.cbs, removed.value, e);
    }
  }

  /** The callback is there in every state of the run. */
  predicate AlwaysThere(s: State, moves: seq<Move>, e: CbInfo<Ref>)
    requires Follows(s, moves)
    decreases |moves|
  {
    e in s.cbs && (moves != [] ==> AlwaysThere(Next(s, moves[0].thread, moves[0].step), moves[1..], e))
  }

  predicate NeverRemoved(s: State, moves: seq<Move>, key: Key)
    requires Follows(s, moves)
    decreases |moves|
  {
    moves != [] ==>
      && RemovedKey(s, moves[0].thread, moves[0].step) != Some(key)
      && NeverRemoved(Next(s, moves[0].thread, moves[0].step), moves[1..], key)
  }

  /** Over any disciplined run a callback stays exactly when no thread, for whatever command, removes its key. */
  lemma {:induction false} StaysIffNeverRemoved(s: State, moves: seq<Move>, e: CbInfo<Ref>)
    requires Inv(s) && Follows(s, moves) && AllDisciplined(s, moves) && e in s.cbs
    ensures AlwaysThere(s, moves, e) <==> NeverRemoved(s, moves, e.key)
    decreases |moves|
  {
    if moves == [] {
    } else {
      var t, step := moves[0].thread, moves[0].step;
      GoesIffKeyRemoved(s, t, step, e);
      if e in Next(s, t, step).cbs {
        StepKeepsInv(s, t, step);
        StaysIffNeverRemoved(Next(s, t, step), moves[1..], e);
      }
    }
  }

  // ---------------------------------------------------------------- commands that share no key

  /** No two live commands listen to the same event. */
  predicate Apart(s: State) {
    forall o, p :: 0 <= o < |s.heap| && 0 <= p < |s.heap| && o != p && s.heap[o].refs > 0 && s.heap[p].refs > 0 ==>
      NoneShared(s.heap[o].kind, s.heap[p].kind)
  }

  predicate NoneShared(a: Kind, b: Kind) {
    forall k :: k in a.keys ==> k !in b.keys
  }

  /** A new command shares no event with a live one, not even with one that is cancelled and still in its handler; and
      no callback is removed by a temporary command. */
  predicate KeepsApart(s: State, step: Step) {
    match step
    case New(_, kind) => forall o :: 0 <= o < |s.heap| && s.heap[o].refs > 0 ==> NoneShared(s.heap[o].kind, kind)
    case RemoveCallback(_) => false
    case _ => true
  }

  /** No command comes back to life or becomes another kind. */
  predicate NoneRevived(s: State, s': State) {
    && |s.heap| <= |s'.heap|
    && forall o :: 0 <= o < |s.heap| ==>
         s'.heap[o].kind == s.heap[o].kind && (s'.heap[o].refs > 0 ==> s.heap[o].refs > 0)
  }

  lemma CallbackIsAlive(s: State, e: CbInfo<Ref>)
    requires Inv(s) && e in s.cbs
    ensures s.heap[e.arg].refs > 0 && e.key in s.heap[e.arg].kind.keys
  {
    assert Accounted(s, e.arg);
  }

  lemma StepRevivesNone(s: State, t: nat, step: Step)
    requires Inv(s) && Enabled(s, t, step)
    ensures NoneRevived(s, Next(s, t, step))
    ensures |Next(s, t, step).heap| == |s.heap| + if step.New? then 1 else 0
  {
    if step.Dispatch? {
      QueueMembers(s.cbs, step.key);
      var q := Queue(s.cbs, step.key);
      if q != [] {
        CallbackIsAlive(s, q[0]);
      }
    }
  }

  lemma StepKeepsApart(s: State, t: nat, step: Step)
    requires Inv(s) && Apart(s) && Enabled(s, t, step) && KeepsApart(s, step)
    ensures Apart(Next(s, t, step))
  {
    var s' := Next(s, t, step);
    StepRevivesNone(s, t, step);
    if step.New? {
      assert s'.heap[|s.heap|].kind == step.kind;
    }
  }

  /** The thread has come to take away the callbacks of its own command: its start has failed, it is cancelled, or it
      retires. */
  predicate TakesAway(pc: Pc, o: Ref) {
    (pc.FailUnregister? || pc.Cancelling? || pc.RetireHandler?) && pc.o == o
  }

  /** Then a callback goes only when a thread takes away those of its command. */
  lemma OnlyItsOwnGo(s: State, t: nat, step: Step, e: CbInfo<Ref>)
    requires Inv(s) && Apart(s) && Enabled(s, t, step) && KeepsApart(s, step) && e in s.cbs
    ensures e !in Next(s, t, step).cbs ==> TakesAway(s.threads[t], e.arg)
  {
    var pc := s.threads[t];
    var removed := RemovedKey(s, t, step);
    GoesIffKeyRemoved(s, t, step, e);
    if removed.Some? && !pc.Free? && pc.o != e.arg {
      CallbackIsAlive(s, e);
      RolesKeepAlive(s, t);
      RemovedIsItsKey(s, t, step);
      assert NoneShared(s.heap[pc.o].kind, s.heap[e.arg].kind);
    }
  }

  lemma RemovedIsItsKey(s: State, t: nat, step: Step)
    requires Inv(s) && Enabled(s, t, step) && RemovedKey(s, t, step).Some? && !step.RemoveCallback?
    ensures RemovedKey(s, t, step).value in s.heap[s.threads[t].o].kind.keys
  {
    var kind := s.heap[s.threads[t].o].kind;
    assert GoodKind(kind);
    var k := RemovedKey(s, t, step).value;
    assert k in kind.keys || k in kind.removal;
    assert k in multiset(kind.keys) <==> k in multiset(kind.removal);
  }

  predicate AllKeepApart(s: State, moves: seq<Move>)
    requires Follows(s, moves)
    decreases |moves|
  {
    moves != [] ==>
      && KeepsApart(s, moves[0].step)
      && AllKeepApart(Next(s, moves[0].thread, moves[0].step), moves[1..])
  }

  /** The step gives a reason to take the callbacks of o away: its start fails, it is cancelled, or it retires because
      the event it handles completes it. */
  predicate GivesReason(s: State, t: nat, step: Step, o: Ref) {
    && t < |s.threads|
    && match step
       case EarlyResult(ok, _) => s.threads[t] == Early(o) && !ok
       case LateResult(ok) => s.threads[t] == Late(o) && !ok
       case BeginCancel(id) => FindId(s.table, id) == Some(o)
       case Handle(completes) => s.threads[t] == InHandler(o) && completes
       case _ => false
  }

  /** No thread takes them away without a reason. */
  lemma TakesAwayForAReason(s: State, t: nat, step: Step, u: nat, o: Ref)
    requires Typed(s) && Enabled(s, t, step) && u < |s.threads|
    requires TakesAway(Next(s, t, step).threads[u], o)
    ensures TakesAway(s.threads[u], o) || (u == t && GivesReason(s, t, step, o))
  {}

  predicate NoneTakesAway(s: State, o: Ref) {
    forall u :: 0 <= u < |s.threads| ==> !TakesAway(s.threads[u], o)
  }

  predicate SomeGivesReason(s: State, moves: seq<Move>, o: Ref)
    requires Follows(s, moves)
    decreases |moves|
  {
    && moves != []
    && (|| GivesReason(s, moves[0].thread, moves[0].step, o)
        || SomeGivesReason(Next(s, moves[0].thread, moves[0].step), moves[1..], o))
  }

  /** Over any run of callers who keep their commands apart, a command keeps every callback it has, unless its start
      fails, it is cancelled, or an event completes it. */
  lemma {:induction false} CallbacksAreKept(s: State, moves: seq<Move>, e: CbInfo<Ref>)
    requires Inv(s) && Apart(s) && Follows(s, moves) && AllDisciplined(s, moves) && AllKeepApart(s, moves)
    requires e in s.cbs && NoneTakesAway(s, e.arg) && !SomeGivesReason(s, moves, e.arg)
    ensures e in End(s, moves).cbs
    decreases |moves|
  {
    if moves == [] {
    } else {
      var t, step := moves[0].thread, moves[0].step;
      OnlyItsOwnGo(s, t, step, e);
      StepKeepsInv(s, t, step);
      StepKeepsApart(s, t, step);
      NoneComesToTakeAway(s, t, step, e.arg);
      CallbacksAreKept(Next(s, t, step), moves[1..], e);
    }
  }

  lemma NoneComesToTakeAway(s: State, t: nat, step: Step, o: Ref)
    requires Typed(s) && Enabled(s, t, step) && NoneTakesAway(s, o) && !GivesReason(s, t, step, o)
    ensures NoneTakesAway(Next(s, t, step), o)
  {
    forall u | 0 <= u < |s.threads| ensures !TakesAway(Next(s, t, step).threads[u], o) {
      if TakesAway(Next(s, t, step).threads[u], o) {
        TakesAwayForAReason(s, t, step, u, o);
      }
    }
  }

  // ---------------------------------------------------------------- only what completes retires

  predicate Retiring(pc: Pc, o: Ref) {
    (pc.RetireHandler? || pc.RetireCommand? || pc.RetireDrop?) && pc.o == o
  }

  /** In the k-th move of the run the thread handled an event for o that completed it. */
  predicate CompletedAt(s: State, moves: seq<Move>, t: nat, o: Ref, k: nat)
    requires Follows(s, moves)
    decreases |moves|
  {
    && k < |moves|
    && if k == 0 then moves[0] == Move(t, Handle(true)) && t < |s.threads| && s.threads[t] == InHandler(o)
       else CompletedAt(Next(s, moves[0].thread, moves[0].step), moves[1..], t, o, k - 1)
  }

  lemma RetiresForCompletion(s: State, u: nat, step: Step, t: nat, o: Ref)
    requires Typed(s) && Enabled(s, u, step) && t < |s.threads| && Retiring(Next(s, u, step).threads[t], o)
    ensures Retiring(s.threads[t], o) || (u == t && step == Handle(true) && s.threads[t] == InHandler(o))
  {}

  lemma StepKeepsThreads(s: State, t: nat, step: Step)
    requires Typed(s) && Enabled(s, t, step)
    ensures |Next(s, t, step).threads| == |s.threads|
  {}

  /** A thread that retires a command has handled an event that completed it, or was retiring it from the start. */
  lemma {:induction false} RetiringHasCompleted(s: State, moves: seq<Move>, t: nat, o: Ref) returns (k: nat)
    requires Follows(s, moves) && t < |s.threads| && t < |End(s, moves).threads|
    requires Retiring(End(s, moves).threads[t], o)
    ensures Retiring(s.threads[t], o) || CompletedAt(s, moves, t, o, k)
    decreases |moves|
  {
    k := 0;
    if moves == [] {
    } else {
      var m := moves[0];
      var s' := Next(s, m.thread, m.step);
      StepKeepsThreads(s, m.thread, m.step);
      var j := RetiringHasCompleted(s', moves[1..], t, o);
      if Retiring(s'.threads[t], o) {
        RetiresForCompletion(s, m.thread, m.step, t, o);
      } else {
        k := j + 1;
      }
    }
  }

  /** So over every run of any number of threads a command is only retired by a thread that has handled an event that
      completed it. */
  lemma OnlyTheCompletedRetire(threads: nat, cbCapacity: nat, cmdCapacity: nat, moves: seq<Move>, t: nat, o: Ref)
    returns (k: nat)
    requires Follows(Initial(threads, cbCapacity, cmdCapacity), moves)
    requires var end := End(Initial(threads, cbCapacity, cmdCapacity), moves);
             t < threads && t < |end.threads| && Retiring(end.threads[t], o)
    ensures CompletedAt(Initial(threads, cbCapacity, cmdCapacity), moves, t, o, k)
  {
    k := RetiringHasCompleted(Initial(threads, cbCapacity, cmdCapacity), moves, t, o);
  }
}
