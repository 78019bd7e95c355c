/** Commands that several threads start, dispatch events to, cancel and release at once.

    One step is what a thread does between two points where another may run: an operation on the callback table
    under its lock, an operation on the command table, a change of a reference count, or a use of a command. */
module CommandLifecycle {
  import opened Bytes
  import opened HandlerTables

  /** A command object, by its place in the order of creation. */
  type Ref = nat

  /** How a class of commands behaves: the events it registers for, and those it unregisters, in order; whether a
      start that fails before registering may unregister all the same; whether a start can fail after registering;
      whether the command retires itself from its own event handler; and whether its cancel takes it out of the
      command table. */
  datatype Kind = Kind(
    keys: seq<Key>, removal: seq<Key>,
    earlyUnregisters: bool, mayFailLate: bool, selfRetires: bool, cancelUnregisters: bool)

  predicate GoodKind(k: Kind) {
    && k.keys != []
    && multiset(k.keys) == multiset(k.removal)
    && (k.selfRetires ==> |k.keys| == 1 && !k.mayFailLate)
  }

  function Vendor(event: int): Key { Key(NL80211_CMD_VENDOR, GOOGLE_OUI, event) }

  const GSCAN_EVENT_HOTLIST_RESULTS_FOUND := 3
  const GSCAN_EVENT_SCAN_RESULTS_AVAILABLE := 4
  const GSCAN_EVENT_FULL_SCAN_RESULTS := 5
  const RTT_EVENT_COMPLETE := 6
  const GSCAN_EVENT_COMPLETE_SCAN := 7
  const GSCAN_EVENT_HOTLIST_RESULTS_LOST := 8
  const GOOGLE_DEBUG_RING_EVENT := 10
  const GOOGLE_DEBUG_MEM_DUMP_EVENT := 11
  const GOOGLE_RSSI_MONITOR_EVENT := 13

  function Single(event: int, mayFailLate: bool, selfRetires: bool, cancelUnregisters: bool): Kind {
    Kind([Vendor(event)], [Vendor(event)], false, mayFailLate, selfRetires, cancelUnregisters)
  }

  const SCAN := Kind(
    [Vendor(GSCAN_EVENT_SCAN_RESULTS_AVAILABLE), Vendor(GSCAN_EVENT_COMPLETE_SCAN),
     Vendor(GSCAN_EVENT_FULL_SCAN_RESULTS)],
    [Vendor(GSCAN_EVENT_COMPLETE_SCAN), Vendor(GSCAN_EVENT_SCAN_RESULTS_AVAILABLE),
     Vendor(GSCAN_EVENT_FULL_SCAN_RESULTS)], false, true, false, false)
  const FULL_SCAN := Single(GSCAN_EVENT_FULL_SCAN_RESULTS, true, false, false)
  const HOTLIST := Kind(
    [Vendor(GSCAN_EVENT_HOTLIST_RESULTS_FOUND), Vendor(GSCAN_EVENT_HOTLIST_RESULTS_LOST)],
    [Vendor(GSCAN_EVENT_HOTLIST_RESULTS_FOUND), Vendor(GSCAN_EVENT_HOTLIST_RESULTS_LOST)], true, true, false, false)
  const RSSI := Single(GOOGLE_RSSI_MONITOR_EVENT, false, false, false)
  const LOG := Single(GOOGLE_DEBUG_RING_EVENT, false, false, false)
  const ALERT := Single(GOOGLE_DEBUG_MEM_DUMP_EVENT, false, false, true)
  const RTT := Single(RTT_EVENT_COMPLETE, false, true, false)

  lemma TheKindsAreGood()
    ensures GoodKind(SCAN) && GoodKind(FULL_SCAN) && GoodKind(HOTLIST) && GoodKind(RSSI)
    ensures GoodKind(LOG) && GoodKind(ALERT) && GoodKind(RTT)
  {}

  /** A command with its reference count. How often it was freed, and how often the reference it was created with
      was dropped, are kept to speak about them. */
  datatype Obj = Obj(id: int, kind: Kind, refs: int, freed: nat, dropped: nat)

  /** Where a thread is, and which command it works on. */
  datatype Pc =
    | Free
    | Created(o: Ref)                       // new, not yet in the command table
    | Early(o: Ref)                         // start: requests before registering
    | Registering(o: Ref, i: nat)           // start: the i-th handler is next
    | Late(o: Ref)                          // start: requests after registering
    | FailUnregister(o: Ref, i: nat)        // start has failed: the i-th handler is removed next
    | FailCommand(o: Ref)                   // start has failed: wifi_unregister_cmd is next
    | DropRegistration(o: Ref)              // releaseRef of the first reference is next
    | Cancelling(o: Ref, i: nat)            // cancel, out of the table: the i-th handler is removed next
    | CancelCommand(o: Ref)                 // cancel: wifi_unregister_cmd is next
    | InHandler(o: Ref)                     // event thread, past addRef
    | RetireHandler(o: Ref)                 // the handler retires its command: its callback first
    | RetireCommand(o: Ref)                 // then its entry in the command table
    | RetireDrop(o: Ref, found: Option<Ref>) // then the reference of the command it found there
    | Signal(o: Ref)                        // mCondition.signal after the handler
    | DropDispatch(o: Ref)                  // releaseRef after the callback

  datatype State = State(
    heap: seq<Obj>, table: seq<CmdInfo<Ref>>, cbs: seq<CbInfo<Ref>>, threads: seq<Pc>,
    cbCapacity: nat, cmdCapacity: nat, bad: bool)
  {
    /** Uses a command; using a freed one is what must never happen. */
    function Touch(o: Ref): State
      requires o < |heap|
    {
      this.(bad := bad || heap[o].freed > 0)
    }

    function AddRef(o: Ref): State
      requires o < |heap|
    {
      Touch(o).(heap := heap[o := heap[o].(refs := heap[o].refs + 1)])
    }

    function ReleaseRef(o: Ref): State
      requires o < |heap|
    {
      var refs := heap[o].refs - 1;
      Touch(o).(heap := heap[o := heap[o].(refs := refs, freed := heap[o].freed + (if refs == 0 then 1 else 0))])
    }

    /** Releases the reference the command was created with. */
    function DropReg(o: Ref): State
      requires o < |heap|
    {
      var s := ReleaseRef(o);
      s.(heap := s.heap[o := s.heap[o].(dropped := heap[o].dropped + 1)])
    }

    function At(t: nat, pc: Pc): State
      requires t < |threads|
    {
      this.(threads := threads[t := pc])
    }
  }

  datatype Step =
    | New(id: int, kind: Kind)
    | RegisterCmd
    | EarlyResult(ok: bool, unregister: bool)
    | RegisterHandler
    | LateResult(ok: bool)
    | UnregisterFailed
    | UnregisterFailedCmd
    | Drop
    | BeginCancel(id: int)
    | UnregisterCancelled
    | CancelSelf
    | Dispatch(key: Key)
    | Handle(completes: bool)
    | RetireUnregister
    | RetireTake
    | RetireRelease
    | Wake
    | EndDispatch
    | RemoveCallback(key: Key)  // the cancel of a temporary command

  /** The thread is where the step starts. */
  predicate Enabled(s: State, t: nat, step: Step) {
    && t < |s.threads|
    && match step
       case New(_, _) => s.threads[t].Free?
       case RegisterCmd => s.threads[t].Created?
       case EarlyResult(_, _) => s.threads[t].Early?
       case RegisterHandler => s.threads[t].Registering?
       case LateResult(_) => s.threads[t].Late?
       case UnregisterFailed => s.threads[t].FailUnregister?
       case UnregisterFailedCmd => s.threads[t].FailCommand?
       case Drop => s.threads[t].DropRegistration?
       case BeginCancel(_) => s.threads[t].Free?
       case UnregisterCancelled => s.threads[t].Cancelling?
       case CancelSelf => s.threads[t].CancelCommand?
       case Dispatch(_) => s.threads[t].Free?
       case Handle(_) => s.threads[t].InHandler?
       case RetireUnregister => s.threads[t].RetireHandler?
       case RetireTake => s.threads[t].RetireCommand?
       case RetireRelease => s.threads[t].RetireDrop?
       case Wake => s.threads[t].Signal?
       case EndDispatch => s.threads[t].DropDispatch?
       case RemoveCallback(_) => s.threads[t].Free?
  }

  /** The command may still be looked up by its id: it has its first reference, or it is a ranging command whose
      handler may yet retire it. */
  predicate Claims(c: Obj) {
    c.dropped == 0 || (c.kind.selfRetires && c.refs > 0)
  }

  /** What the users of the HAL are relied on for: a request id is not used again while a command claims it;
      no two live registrations have the same key; and no command is cancelled before its start has returned. */
  predicate Disciplined(s: State, t: nat, step: Step) {
    match step
    case New(id, kind) =>
      GoodKind(kind) && forall o :: 0 <= o < |s.heap| && Claims(s.heap[o]) ==> s.heap[o].id != id
    case RegisterHandler =>
      Enabled(s, t, step) && Typed(s) ==>
        forall e :: e in s.cbs ==> e.key != s.heap[s.threads[t].o].kind.keys[s.threads[t].i]
    case BeginCancel(id) =>
      Typed(s) ==> forall u :: 0 <= u < |s.threads| && Starting(s.threads[u]) ==> s.heap[s.threads[u].o].id != id
    case _ => true
  }

  /** In a call that starts or cancels a command. */
  predicate Calling(pc: Pc) {
    Starting(pc) || pc.Created? || pc.DropRegistration? || pc.Cancelling? || pc.CancelCommand?
  }

  /** No command in the table has the id, and no call about one that has it is under way. */
  predicate NotOutstanding(s: State, id: int) {
    && (forall e :: e in s.table ==> e.id != id)
    && (Typed(s) ==> forall u :: 0 <= u < |s.threads| && Calling(s.threads[u]) ==> s.heap[s.threads[u].o].id != id)
  }

  /** The same discipline, as far as a caller can see: an id is used again only when it is not outstanding and has
      never been that of a ranging command. */
  predicate CallerChecked(s: State, t: nat, step: Step) {
    if step.New? then
      && GoodKind(step.kind) && NotOutstanding(s, step.id)
      && forall o :: 0 <= o < |s.heap| && s.heap[o].kind.selfRetires ==> s.heap[o].id != step.id
    else Disciplined(s, t, step)
  }

  /** In a start that has put its command into the table. */
  predicate Starting(pc: Pc) {
    pc.Early? || pc.Registering? || pc.Late? || pc.FailUnregister? || pc.FailCommand?
  }

  /** Every reference is to a command there is, every index in range, every table entry under its command's id. */
  predicate Typed(s: State) {
    && (forall o :: 0 <= o < |s.heap| ==> GoodKind(s.heap[o].kind))
    && (forall e :: e in s.table ==> e.cmd < |s.heap| && e.id == s.heap[e.cmd].id)
    && (forall e :: e in s.cbs ==> e.arg < |s.heap|)
    && (forall t :: 0 <= t < |s.threads| ==> TypedPc(s, s.threads[t]))
  }

  predicate TypedPc(s: State, pc: Pc) {
    && (!pc.Free? ==> pc.o < |s.heap|)
    && (pc.Registering? ==> pc.i < |s.heap[pc.o].kind.keys|)
    && (pc.FailUnregister? || pc.Cancelling? ==> pc.i < |s.heap[pc.o].kind.removal|)
    && (pc.RetireDrop? && pc.found.Some? ==> pc.found.value < |s.heap|)
    && (pc.RetireHandler? || pc.RetireCommand? || pc.RetireDrop? ==> s.heap[pc.o].kind.selfRetires)
  }

  /** What a thread does next, with what the driver and the events bring given by the step. */
  function Next(s: State, t: nat, step: Step): State
    requires Typed(s) && Enabled(s, t, step)
  {
    var pc := s.threads[t];
    match step
    case New(id, kind) =>
      s.(heap := s.heap + [Obj(id, kind, 1, 0, 0)]).At(t, Created(|s.heap|))
    case RegisterCmd =>
      if |s.table| < s.cmdCapacity then
        s.(table := s.table + [CmdInfo(s.heap[pc.o].id, pc.o)]).At(t, Early(pc.o))
      else s.At(t, DropRegistration(pc.o))
    case EarlyResult(ok, unregister) =>
      s.Touch(pc.o).At(t,
        if ok then Registering(pc.o, 0)
        else if s.heap[pc.o].kind.earlyUnregisters && unregister then FailUnregister(pc.o, 0)
        else FailCommand(pc.o))
    case RegisterHandler =>
      var kind := s.heap[pc.o].kind;
      s.Touch(pc.o).(cbs := Append(s.cbs, s.cbCapacity, CbInfo(kind.keys[pc.i], 0, pc.o))).At(t,
        if pc.i + 1 < |kind.keys| then Registering(pc.o, pc.i + 1)
        else if kind.mayFailLate then Late(pc.o)
        else Free)
    case LateResult(ok) => s.Touch(pc.o).At(t, if ok then Free else FailUnregister(pc.o, 0))
    case UnregisterFailed =>
      var keys := s.heap[pc.o].kind.removal;
      s.Touch(pc.o).(cbs := RemoveKey(s.cbs, keys[pc.i])).At(t,
        if pc.i + 1 < |keys| then FailUnregister(pc.o, pc.i + 1) else FailCommand(pc.o))
    case UnregisterFailedCmd =>
      s.(table := RemoveId(s.table, s.heap[pc.o].id)).At(t, DropRegistration(pc.o))
    case Drop => s.DropReg(pc.o).At(t, Free)
    case BeginCancel(id) =>
      (match FindId(s.table, id)
       case None => s
       case Some(o) => s.(table := RemoveId(s.table, id)).At(t, Cancelling(o, 0)))
    case UnregisterCancelled =>
      var kind := s.heap[pc.o].kind;
      s.Touch(pc.o).(cbs := RemoveKey(s.cbs, kind.removal[pc.i])).At(t,
        if pc.i + 1 < |kind.removal| then Cancelling(pc.o, pc.i + 1)
        else if kind.cancelUnregisters then CancelCommand(pc.o)
        else DropRegistration(pc.o))
    case CancelSelf =>
      s.Touch(pc.o).(table := RemoveId(s.table, s.heap[pc.o].id)).At(t, DropRegistration(pc.o))
    case Dispatch(key) =>
      var q := Queue(s.cbs, key);
      QueueMembers(s.cbs, key);
      if q == [] then s else s.AddRef(q[0].arg).At(t, InHandler(q[0].arg))
    case Handle(completes) =>
      s.Touch(pc.o).At(t, if s.heap[pc.o].kind.selfRetires && completes then RetireHandler(pc.o) else Signal(pc.o))
    case RetireUnregister =>
      s.Touch(pc.o).(cbs := RemoveKey(s.cbs, s.heap[pc.o].kind.keys[0])).At(t, RetireCommand(pc.o))
    case RetireTake =>
      var id := s.heap[pc.o].id;
      s.Touch(pc.o).(table := RemoveId(s.table, id)).At(t, RetireDrop(pc.o, FindId(s.table, id)))
    case RetireRelease =>
      (if pc.found.Some? then s.DropReg(pc.found.value) else s).At(t, Signal(pc.o))
    case Wake => s.Touch(pc.o).At(t, DropDispatch(pc.o))
    case EndDispatch => s.ReleaseRef(pc.o).At(t, Free)
    case RemoveCallback(key) => s.(cbs := RemoveKey(s.cbs, key))
  }

  lemma {:induction false} QueueMembers<A>(s: seq<CbInfo<A>>, k: Key)
    ensures forall e :: e in Queue(s, k) ==> e in s && e.key == k
  {
    if s == [] {
    } else {
      QueueMembers(s[1..], k);
    }
  }

  // ---------------------------------------------------------------- the invariant

  /** How a thread may hold on to a command: it owes the release of the first reference; it is starting it; or it
      holds the reference of a dispatch. */
  datatype Role = Owner | Starter | Flight

  predicate Plays(pc: Pc, role: Role, o: Ref) {
    match role
    case Owner =>
      || ((pc.Created? || pc.DropRegistration? || pc.Cancelling? || pc.CancelCommand?) && pc.o == o)
      || (pc.RetireDrop? && pc.found == Some(o))
    case Starter => Starting(pc) && pc.o == o
    case Flight =>
      && (pc.InHandler? || pc.RetireHandler? || pc.RetireCommand? || pc.RetireDrop? || pc.Signal? || pc.DropDispatch?)
      && pc.o == o
  }

  function Bit(b: bool): nat { if b then 1 else 0 }

  function Count(threads: seq<Pc>, role: Role, o: Ref): nat {
    if threads == [] then 0 else Bit(Plays(threads[0], role, o)) + Count(threads[1..], role, o)
  }

  function Entries(table: seq<CmdInfo<Ref>>, o: Ref): nat {
    if table == [] then 0 else Bit(table[0].cmd == o) + Entries(table[1..], o)
  }

  lemma {:induction false} CountUpdate(threads: seq<Pc>, t: nat, pc: Pc, role: Role, o: Ref)
    requires t < |threads|
    ensures Count(threads[t := pc], role, o) + Bit(Plays(threads[t], role, o))
         == Count(threads, role, o) + Bit(Plays(pc, role, o))
  {
    var u := threads[t := pc];
    if t == 0 {
      assert u[1..] == threads[1..];
    } else {
      assert u[1..] == threads[1..][t - 1 := pc];
      CountUpdate(threads[1..], t - 1, pc, role, o);
    }
  }

  lemma {:induction false} CountAtLeast(threads: seq<Pc>, t: nat, role: Role, o: Ref)
    requires t < |threads| && Plays(threads[t], role, o)
    ensures Count(threads, role, o) >= 1
  {
    if t == 0 {
    } else {
      CountAtLeast(threads[1..], t - 1, role, o);
    }
  }

  lemma {:induction false} CountTwo(threads: seq<Pc>, t: nat, u: nat, role: Role, o: Ref)
    requires t < u < |threads| && Plays(threads[t], role, o) && Plays(threads[u], role, o)
    ensures Count(threads, role, o) >= 2
  {
    if t > 0 {
      CountTwo(threads[1..], t - 1, u - 1, role, o);
    } else {
      CountAtLeast(threads[1..], u - 1, role, o);
    }
  }

  lemma {:induction false} EntriesAppend(table: seq<CmdInfo<Ref>>, e: CmdInfo<Ref>, o: Ref)
    ensures Entries(table + [e], o) == Entries(table, o) + Bit(e.cmd == o)
  {
    if table == [] {
      assert table + [e] == [e];
    } else {
      assert (table + [e])[1..] == table[1..] + [e];
      EntriesAppend(table[1..], e, o);
    }
  }

  lemma {:induction false} EntriesRemove(table: seq<CmdInfo<Ref>>, id: int, o: Ref)
    ensures Entries(RemoveId(table, id), o) + Bit(FindId(table, id) == Some(o)) == Entries(table, o)
    ensures FindId(table, id) == None ==> RemoveId(table, id) == table
    ensures forall e :: e in RemoveId(table, id) ==> e in table
    ensures FindId(table, id).Some? ==> CmdInfo(id, FindId(table, id).value) in table
  {
    if table == [] || table[0].id == id {
    } else {
      EntriesRemove(table[1..], id, o);
      assert ([table[0]] + RemoveId(table[1..], id))[1..] == RemoveId(table[1..], id);
    }
  }

  lemma {:induction false} EntryCounts(table: seq<CmdInfo<Ref>>, e: CmdInfo<Ref>)
    requires e in table
    ensures Entries(table, e.cmd) >= 1
  {
    if table[0] == e {
    } else {
      EntryCounts(table[1..], e);
    }
  }

  lemma {:induction false} CountedEntry(table: seq<CmdInfo<Ref>>, o: Ref)
    requires Entries(table, o) >= 1
    ensures exists e :: e in table && e.cmd == o
  {
    if table[0].cmd != o {
      CountedEntry(table[1..], o);
      var e :| e in table[1..] && e.cmd == o;
      assert e in table;
    } else {
      assert table[0] in table;
    }
  }

  /** A command's first reference has one place: an entry of the table, a thread that owes its release, or it has
      been dropped. Its count is that reference, if it is still there, and the dispatches under way; and it has been
      freed once if its count is 0, and not at all otherwise. */
  predicate Accounted(s: State, o: Ref)
    requires o < |s.heap|
  {
    var c := s.heap[o];
    && Entries(s.table, o) + Count(s.threads, Owner, o) + c.dropped == 1
    && c.refs == 1 - c.dropped + Count(s.threads, Flight, o)
    && c.freed == Bit(c.refs == 0)
    && Count(s.threads, Starter, o) <= Entries(s.table, o)
  }

  predicate Counted(s: State) {
    forall o :: 0 <= o < |s.heap| ==> Accounted(s, o)
  }

  /** A command that has its first reference shares its id with no other that claims it. */
  predicate OwnIds(s: State) {
    forall o, p :: 0 <= o < |s.heap| && 0 <= p < |s.heap| ==>
      (s.heap[o].dropped == 0 && Claims(s.heap[p]) && s.heap[o].id == s.heap[p].id ==> o == p)
  }

  predicate OwnKeys(cbs: seq<CbInfo<Ref>>) {
    forall i, j :: 0 <= i < j < |cbs| ==> cbs[i].key != cbs[j].key
  }

  /** A callback entry is for a command that has its first reference and listens to that event. */
  predicate Backed(s: State)
    requires Typed(s)
  {
    forall e :: e in s.cbs ==> s.heap[e.arg].dropped == 0 && e.key in s.heap[e.arg].kind.keys
  }

  /** The callback entry e is still there to be removed by, or has nothing to do with, a thread at pc. */
  predicate Admits(s: State, pc: Pc, e: CbInfo<Ref>)
    requires Typed(s) && TypedPc(s, pc)
  {
    (!pc.Free? && e.arg == pc.o) ==>
      && !(pc.Created? || pc.Early? || pc.FailCommand? || pc.DropRegistration? || pc.CancelCommand?)
      && !(pc.RetireCommand? || pc.RetireDrop?)
      && (pc.FailUnregister? || pc.Cancelling? ==> e.key !in s.heap[pc.o].kind.removal[..pc.i])
  }

  predicate Cleared(s: State)
    requires Typed(s)
  {
    forall t, e :: 0 <= t < |s.threads| && e in s.cbs ==> Admits(s, s.threads[t], e)
  }

  /** A command that retires itself is no longer being started once events can reach it. */
  predicate StartedBeforeRetiring(s: State)
    requires Typed(s)
  {
    forall o :: 0 <= o < |s.heap| && s.heap[o].kind.selfRetires && Count(s.threads, Starter, o) > 0 ==>
      Count(s.threads, Flight, o) == 0 && forall e :: e in s.cbs ==> e.arg != o
  }

  /** No event is on its way to a command that is not in the table yet. */
  predicate Unheard(s: State) {
    forall t :: 0 <= t < |s.threads| && s.threads[t].Created? ==> Count(s.threads, Flight, s.threads[t].o) == 0
  }

  /** A thread in a retiring handler found its own command in the table, or none. */
  predicate FoundItself(s: State) {
    forall t :: 0 <= t < |s.threads| && s.threads[t].RetireDrop? && s.threads[t].found.Some? ==>
      s.threads[t].found.value == s.threads[t].o
  }

  predicate Inv(s: State) {
    && Typed(s) && Counted(s) && OwnIds(s) && OwnKeys(s.cbs) && Backed(s) && Cleared(s)
    && StartedBeforeRetiring(s) && Unheard(s) && FoundItself(s) && !s.bad
  }

  // ---------------------------------------------------------------- consequences

  /** Whoever plays a role for a command, or lists it, finds it alive. */
  lemma RolesKeepAlive(s: State, t: nat)
    requires Inv(s) && t < |s.threads| && !s.threads[t].Free?
    ensures s.heap[s.threads[t].o].refs > 0 && s.heap[s.threads[t].o].freed == 0
  {
    var pc := s.threads[t];
    assert Accounted(s, pc.o);
    if Plays(pc, Owner, pc.o) {
      CountAtLeast(s.threads, t, Owner, pc.o);
    } else if Plays(pc, Starter, pc.o) {
      CountAtLeast(s.threads, t, Starter, pc.o);
    } else {
      CountAtLeast(s.threads, t, Flight, pc.o);
    }
  }

  lemma {:induction false} CountWitness(threads: seq<Pc>, role: Role, o: Ref)
    requires Count(threads, role, o) > 0
    ensures exists t :: 0 <= t < |threads| && Plays(threads[t], role, o)
  {
    if !Plays(threads[0], role, o) {
      CountWitness(threads[1..], role, o);
      var t :| 0 <= t < |threads[1..]| && Plays(threads[1..][t], role, o);
      assert Plays(threads[t + 1], role, o);
    } else {
      assert Plays(threads[0], role, o);
    }
  }

  /** What the table holds under an id is a live command with that id. */
  lemma FoundIsListed(s: State, id: int, o: Ref)
    requires Inv(s) && FindId(s.table, id) == Some(o)
    ensures o < |s.heap| && s.heap[o].id == id && Entries(s.table, o) == 1
    ensures s.heap[o].refs > 0 && s.heap[o].dropped == 0 && Count(s.threads, Owner, o) == 0
  {
    EntriesRemove(s.table, id, o);
    EntryCounts(s.table, CmdInfo(id, o));
    assert Accounted(s, o);
  }

  /** A command that is in the table is what its id finds there. */
  lemma ListedIsFound(s: State, o: Ref)
    requires Inv(s) && o < |s.heap| && Entries(s.table, o) >= 1
    ensures FindId(s.table, s.heap[o].id) == Some(o)
  {
    var id := s.heap[o].id;
    CountedEntry(s.table, o);
    var e :| e in s.table && e.cmd == o;
    FindsListed(s.table, e);
    var p := FindId(s.table, id).value;
    FoundIsListed(s, id, p);
    assert Accounted(s, o);
  }

  lemma {:induction false} FindsListed(table: seq<CmdInfo<Ref>>, e: CmdInfo<Ref>)
    requires e in table
    ensures FindId(table, e.id).Some?
  {
    if table[0] == e || table[0].id == e.id {
    } else {
      FindsListed(table[1..], e);
    }
  }

  // ---------------------------------------------------------------- every step keeps the invariant

  /** Only the thread t has moved, to pc; the table may have changed too. */
  predicate Moved(s: State, s': State, t: nat, pc: Pc) {
    && t < |s.threads|
    && s'.threads == s.threads[t := pc]
    && s'.heap == s.heap && s'.cbs == s.cbs && s'.bad == s.bad
    && Typed(s) && Typed(s') && TypedPc(s', pc)
  }

  lemma MovedCleared(s: State, s': State, t: nat, pc: Pc)
    requires Moved(s, s', t, pc) && Cleared(s) && forall e :: e in s.cbs ==> Admits(s', pc, e)
    ensures Cleared(s')
  {
    forall u, e | 0 <= u < |s'.threads| && e in s'.cbs ensures Admits(s', s'.threads[u], e) {
      if u != t {
        assert Admits(s, s.threads[u], e);
      }
    }
  }

  lemma MovedStarted(s: State, s': State, t: nat, pc: Pc)
    requires Moved(s, s', t, pc) && StartedBeforeRetiring(s)
    requires forall o: Ref :: Plays(pc, Flight, o) ==> Plays(s.threads[t], Flight, o)
    requires forall o: Ref :: Plays(pc, Starter, o) && !Plays(s.threads[t], Starter, o) ==>
               Count(s.threads, Flight, o) == 0 && forall e :: e in s.cbs ==> e.arg != o
    ensures StartedBeforeRetiring(s')
  {
    forall o | 0 <= o < |s'.heap| && s'.heap[o].kind.selfRetires && Count(s'.threads, Starter, o) > 0
      ensures Count(s'.threads, Flight, o) == 0 && forall e :: e in s'.cbs ==> e.arg != o
    {
      CountUpdate(s.threads, t, pc, Starter, o);
      CountUpdate(s.threads, t, pc, Flight, o);
    }
  }

  lemma MovedUnheard(s: State, s': State, t: nat, pc: Pc)
    requires Moved(s, s', t, pc) && Unheard(s) && !pc.Created?
    requires forall o: Ref :: Plays(pc, Flight, o) ==> Plays(s.threads[t], Flight, o)
    ensures Unheard(s')
  {
    forall u | 0 <= u < |s'.threads| && s'.threads[u].Created?
      ensures Count(s'.threads, Flight, s'.threads[u].o) == 0
    {
      CountUpdate(s.threads, t, pc, Flight, s'.threads[u].o);
    }
  }

  lemma MovedAccount(s: State, t: nat, pc: Pc, o: Ref)
    requires t < |s.threads|
    ensures forall role :: Count(s.threads[t := pc], role, o) + Bit(Plays(s.threads[t], role, o))
                        == Count(s.threads, role, o) + Bit(Plays(pc, role, o))
  {
    forall role
      ensures Count(s.threads[t := pc], role, o) + Bit(Plays(s.threads[t], role, o))
           == Count(s.threads, role, o) + Bit(Plays(pc, role, o))
    {
      CountUpdate(s.threads, t, pc, role, o);
    }
  }

  /** A thread moves on within the same hold on the same command, or is done with starting it. */
  lemma KeepsMoving(s: State, t: nat, pc: Pc)
    requires Inv(s) && t < |s.threads| && TypedPc(s, pc) && !pc.RetireDrop? && !pc.Created?
    requires forall o: Ref :: Plays(pc, Owner, o) == Plays(s.threads[t], Owner, o)
    requires forall o: Ref :: Plays(pc, Flight, o) == Plays(s.threads[t], Flight, o)
    requires forall o: Ref :: Plays(pc, Starter, o) ==> Plays(s.threads[t], Starter, o)
    requires forall e :: e in s.cbs ==> Admits(s, pc, e)
    ensures Inv(s.At(t, pc))
  {
    var s' := s.At(t, pc);
    forall o | 0 <= o < |s'.heap| ensures Accounted(s', o) {
      assert Accounted(s, o);
      MovedAccount(s, t, pc, o);
    }
    MovedCleared(s, s', t, pc);
    MovedStarted(s, s', t, pc);
    MovedUnheard(s, s', t, pc);
  }

  lemma KeepsEarlyResult(s: State, t: nat, ok: bool, unregister: bool)
    requires Inv(s) && Enabled(s, t, EarlyResult(ok, unregister))
    ensures Inv(Next(s, t, EarlyResult(ok, unregister)))
  {
    RolesKeepAlive(s, t);
    var o := s.threads[t].o;
    forall e | e in s.cbs ensures Admits(s, s.threads[t], e) {}
    KeepsMoving(s, t,
      if ok then Registering(o, 0)
      else if s.heap[o].kind.earlyUnregisters && unregister then FailUnregister(o, 0)
      else FailCommand(o));
  }

  lemma KeepsLateResult(s: State, t: nat, ok: bool)
    requires Inv(s) && Enabled(s, t, LateResult(ok))
    ensures Inv(Next(s, t, LateResult(ok)))
  {
    RolesKeepAlive(s, t);
    KeepsMoving(s, t, if ok then Free else FailUnregister(s.threads[t].o, 0));
  }

  lemma KeepsHandle(s: State, t: nat, completes: bool)
    requires Inv(s) && Enabled(s, t, Handle(completes))
    ensures Inv(Next(s, t, Handle(completes)))
  {
    RolesKeepAlive(s, t);
    var o := s.threads[t].o;
    KeepsMoving(s, t, if s.heap[o].kind.selfRetires && completes then RetireHandler(o) else Signal(o));
  }

  lemma KeepsWake(s: State, t: nat)
    requires Inv(s) && Enabled(s, t, Wake)
    ensures Inv(Next(s, t, Wake))
  {
    RolesKeepAlive(s, t);
    KeepsMoving(s, t, DropDispatch(s.threads[t].o));
  }

  // ---------------------------------------------------------------- steps on the callback table

  lemma {:induction false} RemovedKeyIsGone(cbs: seq<CbInfo<Ref>>, k: Key)
    requires OwnKeys(cbs)
    ensures OwnKeys(RemoveKey(cbs, k))
    ensures forall e :: e in RemoveKey(cbs, k) ==> e in cbs && e.key != k
  {
    if cbs == [] {
    } else {
      RemovedKeyIsGone(cbs[1..], k);
      if cbs[0].key == k {
        forall e | e in cbs[1..] ensures e.key != k {}
      } else {
        var rest := RemoveKey(cbs[1..], k);
        forall j | 0 <= j < |rest| ensures rest[j].key != cbs[0].key {
          assert rest[j] in cbs[1..];
        }
      }
    }
  }

  lemma KeepsRemoving(s: State, k: Key)
    requires Inv(s)
    ensures Inv(s.(cbs := RemoveKey(s.cbs, k)))
  {
    RemovedKeyIsGone(s.cbs, k);
    var s' := s.(cbs := RemoveKey(s.cbs, k));
    forall o | 0 <= o < |s'.heap| ensures Accounted(s', o) {
      assert Accounted(s, o);
    }
    forall t, e | 0 <= t < |s'.threads| && e in s'.cbs ensures Admits(s', s'.threads[t], e) {
      assert Admits(s, s.threads[t], e);
    }
  }

  lemma FailUnfolds(s: State, t: nat)
    requires Typed(s) && Enabled(s, t, UnregisterFailed)
    requires !s.bad && s.heap[s.threads[t].o].freed == 0
    ensures var pc := s.threads[t];
            var keys := s.heap[pc.o].kind.removal;
            Next(s, t, UnregisterFailed) ==
              s.(cbs := RemoveKey(s.cbs, keys[pc.i])).At(t,
                if pc.i + 1 < |keys| then FailUnregister(pc.o, pc.i + 1) else FailCommand(pc.o))
  {}

  lemma KeepsUnregisterFailed(s: State, t: nat)
    requires Inv(s) && Enabled(s, t, UnregisterFailed)
    ensures Inv(Next(s, t, UnregisterFailed))
  {
    RolesKeepAlive(s, t);
    FailUnfolds(s, t);
    var pc := s.threads[t];
    var keys := s.heap[pc.o].kind.removal;
    var pc' := if pc.i + 1 < |keys| then FailUnregister(pc.o, pc.i + 1) else FailCommand(pc.o);
    KeepsRemoving(s, keys[pc.i]);
    var s' := s.(cbs := RemoveKey(s.cbs, keys[pc.i]));
    NoneLeft(s, t, keys, pc.i);
    KeepsMoving(s', t, pc');
  }

  /** Once the keys up to i are removed, no callback of the command has one of them. */
  lemma NoneLeft(s: State, t: nat, keys: seq<Key>, i: nat)
    requires Inv(s) && t < |s.threads| && (s.threads[t].FailUnregister? || s.threads[t].Cancelling?)
    requires keys == s.heap[s.threads[t].o].kind.removal && i == s.threads[t].i
    ensures forall e :: e in RemoveKey(s.cbs, keys[i]) && e.arg == s.threads[t].o ==> e.key !in keys[..i + 1]
    ensures i + 1 == |keys| ==> forall e :: e in RemoveKey(s.cbs, keys[i]) ==> e.arg != s.threads[t].o
  {
    RemovedKeyIsGone(s.cbs, keys[i]);
    assert keys[..i + 1] == keys[..i] + [keys[i]];
    forall e | e in RemoveKey(s.cbs, keys[i]) && e.arg == s.threads[t].o ensures e.key !in keys[..i + 1] {
      assert Admits(s, s.threads[t], e);
    }
    if i + 1 == |keys| {
      assert keys[..i + 1] == keys;
      forall e | e in RemoveKey(s.cbs, keys[i]) ensures e.arg != s.threads[t].o {
        assert e.key in multiset(s.heap[e.arg].kind.keys);
      }
    }
  }

  /** The thread has removed the i-th callback of the command it cancels: it goes on to the next. */
  lemma CancelGoesOn(s: State, t: nat)
    requires Inv(s) && t < |s.threads| && s.threads[t].Cancelling?
    requires s.threads[t].i + 1 < |s.heap[s.threads[t].o].kind.removal|
    requires forall e :: e in s.cbs && e.arg == s.threads[t].o ==>
               e.key !in s.heap[e.arg].kind.removal[..s.threads[t].i + 1]
    ensures Inv(s.At(t, Cancelling(s.threads[t].o, s.threads[t].i + 1)))
  {
    KeepsMoving(s, t, Cancelling(s.threads[t].o, s.threads[t].i + 1));
  }

  /** It has removed the last one. */
  lemma CancelIsDone(s: State, t: nat, pc: Pc)
    requires Inv(s) && t < |s.threads| && s.threads[t].Cancelling?
    requires pc == CancelCommand(s.threads[t].o) || pc == DropRegistration(s.threads[t].o)
    requires forall e :: e in s.cbs ==> e.arg != s.threads[t].o
    ensures Inv(s.At(t, pc))
  {
    KeepsMoving(s, t, pc);
  }

  lemma CancelUnfolds(s: State, t: nat)
    requires Typed(s) && Enabled(s, t, UnregisterCancelled)
    requires !s.bad && s.heap[s.threads[t].o].freed == 0
    ensures var pc := s.threads[t];
            var kind := s.heap[pc.o].kind;
            Next(s, t, UnregisterCancelled) ==
              s.(cbs := RemoveKey(s.cbs, kind.removal[pc.i])).At(t,
                if pc.i + 1 < |kind.removal| then Cancelling(pc.o, pc.i + 1)
                else if kind.cancelUnregisters then CancelCommand(pc.o)
                else DropRegistration(pc.o))
  {}

  lemma KeepsUnregisterCancelled(s: State, t: nat)
    requires Inv(s) && Enabled(s, t, UnregisterCancelled)
    ensures Inv(Next(s, t, UnregisterCancelled))
  {
    RolesKeepAlive(s, t);
    CancelUnfolds(s, t);
    var pc := s.threads[t];
    var kind := s.heap[pc.o].kind;
    KeepsRemoving(s, kind.removal[pc.i]);
    NoneLeft(s, t, kind.removal, pc.i);
    var s' := s.(cbs := RemoveKey(s.cbs, kind.removal[pc.i]));
    if pc.i + 1 < |kind.removal| {
      CancelGoesOn(s', t);
    } else {
      CancelIsDone(s', t, if kind.cancelUnregisters then CancelCommand(pc.o) else DropRegistration(pc.o));
    }
  }

  lemma KeepsRetireUnregister(s: State, t: nat)
    requires Inv(s) && Enabled(s, t, RetireUnregister)
    ensures Inv(Next(s, t, RetireUnregister))
  {
    RolesKeepAlive(s, t);
    var o := s.threads[t].o;
    var key := s.heap[o].kind.keys[0];
    KeepsRemoving(s, key);
    RemovedKeyIsGone(s.cbs, key);
    var s' := s.(cbs := RemoveKey(s.cbs, key));
    forall e | e in s'.cbs ensures e.arg != o {
      assert e in s.cbs;
      assert s.heap[o].kind.keys == [key];
    }
    KeepsMoving(s', t, RetireCommand(o));
  }

  /** A handler is registered: nobody who works on the command counts on its absence. */
  lemma OthersAdmit(s: State, t: nat, u: nat, e: CbInfo<Ref>)
    requires Inv(s) && t < |s.threads| && u < |s.threads| && u != t
    requires s.threads[t].Registering? && e.arg == s.threads[t].o
    ensures Admits(s, s.threads[u], e)
  {
    var o := e.arg;
    assert Accounted(s, o);
    CountAtLeast(s.threads, t, Starter, o);
    var pc := s.threads[u];
    if !pc.Free? && pc.o == o {
      if Plays(pc, Starter, o) {
        if t < u {
          CountTwo(s.threads, t, u, Starter, o);
        } else {
          CountTwo(s.threads, u, t, Starter, o);
        }
      } else if Plays(pc, Owner, o) {
        CountAtLeast(s.threads, u, Owner, o);
      } else {
        CountAtLeast(s.threads, u, Flight, o);
      }
    }
  }

  lemma KeepsAdding(s: State, e: CbInfo<Ref>)
    requires Inv(s) && e.arg < |s.heap| && s.heap[e.arg].dropped == 0 && e.key in s.heap[e.arg].kind.keys
    requires forall f :: f in s.cbs ==> f.key != e.key
    requires forall t :: 0 <= t < |s.threads| ==> Admits(s, s.threads[t], e)
    requires s.heap[e.arg].kind.selfRetires ==> Count(s.threads, Starter, e.arg) == 0
    ensures Inv(s.(cbs := s.cbs + [e]))
  {
    var s' := s.(cbs := s.cbs + [e]);
    AddingCleared(s, e);
    forall o | 0 <= o < |s'.heap| ensures Accounted(s', o) {
      assert Accounted(s, o);
    }
  }

  lemma AddingCleared(s: State, e: CbInfo<Ref>)
    requires Inv(s) && e.arg < |s.heap| && forall f :: f in s.cbs ==> f.key != e.key
    requires forall t :: 0 <= t < |s.threads| ==> Admits(s, s.threads[t], e)
    ensures Typed(s.(cbs := s.cbs + [e])) && Cleared(s.(cbs := s.cbs + [e])) && OwnKeys(s.cbs + [e])
  {
    var s' := s.(cbs := s.cbs + [e]);
    forall t | 0 <= t < |s'.threads| ensures TypedPc(s', s'.threads[t]) {
      assert TypedPc(s, s.threads[t]);
    }
    forall t, f | 0 <= t < |s'.threads| && f in s'.cbs ensures Admits(s', s'.threads[t], f) {
      assert Admits(s, s.threads[t], f);
    }
    forall i, j | 0 <= i < j < |s'.cbs| ensures s'.cbs[i].key != s'.cbs[j].key {
      assert s'.cbs[i] in s.cbs;
    }
  }

  /** Where the thread goes that has registered its i-th handler. */
  function AfterRegistering(kind: Kind, o: Ref, i: nat): Pc {
    if i + 1 < |kind.keys| then Registering(o, i + 1)
    else if kind.mayFailLate then Late(o)
    else Free
  }

  lemma AllAdmit(s: State, t: nat, pc: Pc, e: CbInfo<Ref>)
    requires Inv(s) && t < |s.threads| && s.threads[t].Registering? && e.arg == s.threads[t].o
    requires TypedPc(s, pc) && (pc.Registering? || pc.Late? || pc.Free?)
    requires Inv(s.At(t, pc))
    ensures forall u :: 0 <= u < |s.threads| ==> Admits(s.At(t, pc), s.At(t, pc).threads[u], e)
  {
    var s' := s.At(t, pc);
    forall u | 0 <= u < |s.threads| ensures Admits(s', s'.threads[u], e) {
      if u != t {
        OthersAdmit(s, t, u, e);
        assert Admits(s', s.threads[u], e);
      }
    }
  }

  lemma RegistrantFacts(s: State, t: nat, pc: Pc)
    requires Inv(s) && t < |s.threads| && s.threads[t].Registering?
    ensures s.heap[s.threads[t].o].dropped == 0
    ensures pc.Free? ==> Count(s.At(t, pc).threads, Starter, s.threads[t].o) == 0
  {
    var o := s.threads[t].o;
    assert Accounted(s, o);
    CountAtLeast(s.threads, t, Starter, o);
    CountUpdate(s.threads, t, pc, Starter, o);
  }

  lemma RegistrantMoves(s: State, t: nat)
    requires Inv(s) && t < |s.threads| && s.threads[t].Registering?
    ensures var pc := s.threads[t];
            Inv(s.At(t, AfterRegistering(s.heap[pc.o].kind, pc.o, pc.i)))
  {
    var pc := s.threads[t];
    KeepsMoving(s, t, AfterRegistering(s.heap[pc.o].kind, pc.o, pc.i));
  }

  lemma RegisterUnfolds(s: State, t: nat)
    requires Typed(s) && Enabled(s, t, RegisterHandler)
    requires !s.bad && s.heap[s.threads[t].o].freed == 0
    ensures var pc := s.threads[t];
            var kind := s.heap[pc.o].kind;
            Next(s, t, RegisterHandler) ==
              s.At(t, AfterRegistering(kind, pc.o, pc.i)).(
                cbs := Append(s.cbs, s.cbCapacity, CbInfo(kind.keys[pc.i], 0, pc.o)))
  {}

  lemma KeepsRegisterHandler(s: State, t: nat)
    requires Inv(s) && Enabled(s, t, RegisterHandler) && Disciplined(s, t, RegisterHandler)
    ensures Inv(Next(s, t, RegisterHandler))
  {
    RolesKeepAlive(s, t);
    RegisterUnfolds(s, t);
    var pc := s.threads[t];
    var kind := s.heap[pc.o].kind;
    var e := CbInfo(kind.keys[pc.i], 0, pc.o);
    var pc' := AfterRegistering(kind, pc.o, pc.i);
    var s' := s.At(t, pc');
    RegistrantMoves(s, t);
    if |s.cbs| < s.cbCapacity {
      AllAdmit(s, t, pc', e);
      RegistrantFacts(s, t, pc');
      KeepsAdding(s', e);
    }
  }

  // ---------------------------------------------------------------- steps on the command table

  /** The thread at pc takes what the table holds under the id, and owes its release from then on. */
  ghost predicate Takes(s: State, t: nat, id: int, pc: Pc)
    requires Typed(s) && t < |s.threads| && TypedPc(s, pc)
  {
    && (forall o: Ref :: Plays(pc, Owner, o) <==> FindId(s.table, id) == Some(o))
    && (forall o: Ref :: !Plays(s.threads[t], Owner, o))
    && (forall o: Ref :: Plays(pc, Flight, o) == Plays(s.threads[t], Flight, o))
    && (forall o: Ref :: !Plays(pc, Starter, o))
    && (forall o: Ref :: FindId(s.table, id) == Some(o) ==>
          Count(s.threads, Starter, o) == Bit(Plays(s.threads[t], Starter, o)))
    && (forall e :: e in s.cbs ==> Admits(s, pc, e))
    && !pc.Created?
    && (pc.RetireDrop? && pc.found.Some? ==> pc.found.value == pc.o)
  }

  lemma TakingAccounts(s: State, t: nat, id: int, pc: Pc)
    requires Inv(s) && t < |s.threads| && TypedPc(s, pc) && Takes(s, t, id, pc)
    ensures Counted(s.(table := RemoveId(s.table, id)).At(t, pc))
  {
    var s' := s.(table := RemoveId(s.table, id)).At(t, pc);
    forall o | 0 <= o < |s'.heap| ensures Accounted(s', o) {
      assert Accounted(s, o);
      EntriesRemove(s.table, id, o);
      MovedAccount(s, t, pc, o);
    }
  }

  lemma KeepsTaking(s: State, t: nat, id: int, pc: Pc)
    requires Inv(s) && t < |s.threads| && TypedPc(s, pc) && Takes(s, t, id, pc)
    ensures Inv(s.(table := RemoveId(s.table, id)).At(t, pc))
  {
    var s' := s.(table := RemoveId(s.table, id)).At(t, pc);
    TakingTyped(s, t, id, pc);
    TakingAccounts(s, t, id, pc);
    MovedCleared(s, s', t, pc);
    MovedStarted(s, s', t, pc);
    MovedUnheard(s, s', t, pc);
  }

  lemma TakingTyped(s: State, t: nat, id: int, pc: Pc)
    requires Inv(s) && t < |s.threads| && TypedPc(s, pc)
    requires pc.RetireDrop? && pc.found.Some? ==> pc.found.value == pc.o
    ensures var s' := s.(table := RemoveId(s.table, id)).At(t, pc);
            Typed(s') && TypedPc(s', pc) && FoundItself(s')
  {
    var s' := s.(table := RemoveId(s.table, id)).At(t, pc);
    EntriesRemove(s.table, id, 0);
    forall u | 0 <= u < |s'.threads| ensures TypedPc(s', s'.threads[u]) {
      if u != t {
        assert TypedPc(s, s.threads[u]);
      }
    }
  }

  lemma KeepsUnregisterFailedCmd(s: State, t: nat)
    requires Inv(s) && Enabled(s, t, UnregisterFailedCmd)
    ensures Inv(Next(s, t, UnregisterFailedCmd))
  {
    var o := s.threads[t].o;
    assert Accounted(s, o);
    CountAtLeast(s.threads, t, Starter, o);
    ListedIsFound(s, o);
    forall e | e in s.cbs ensures Admits(s, DropRegistration(o), e) {
      assert Admits(s, s.threads[t], e);
    }
    KeepsTaking(s, t, s.heap[o].id, DropRegistration(o));
  }

  lemma KeepsBeginCancel(s: State, t: nat, id: int)
    requires Inv(s) && Enabled(s, t, BeginCancel(id)) && Disciplined(s, t, BeginCancel(id))
    ensures Inv(Next(s, t, BeginCancel(id)))
  {
    if FindId(s.table, id).Some? {
      var o := FindId(s.table, id).value;
      FoundIsListed(s, id, o);
      NobodyStarts(s, t, id, o);
      KeepsTaking(s, t, id, Cancelling(o, 0));
    }
  }

  lemma NobodyStarts(s: State, t: nat, id: int, o: Ref)
    requires Typed(s) && Disciplined(s, t, BeginCancel(id)) && o < |s.heap| && s.heap[o].id == id
    ensures Count(s.threads, Starter, o) == 0
  {
    if Count(s.threads, Starter, o) > 0 {
      CountWitness(s.threads, Starter, o);
    }
  }

  lemma KeepsCancelSelf(s: State, t: nat)
    requires Inv(s) && Enabled(s, t, CancelSelf)
    ensures Inv(Next(s, t, CancelSelf))
  {
    RolesKeepAlive(s, t);
    var o := s.threads[t].o;
    assert Accounted(s, o);
    CountAtLeast(s.threads, t, Owner, o);
    var found := FindId(s.table, s.heap[o].id);
    if found.Some? {
      FoundIsListed(s, s.heap[o].id, found.value);
      assert false;
    }
    EntriesRemove(s.table, s.heap[o].id, o);
    KeepsMoving(s, t, DropRegistration(o));
  }

  lemma KeepsRetireTake(s: State, t: nat)
    requires Inv(s) && Enabled(s, t, RetireTake)
    ensures Inv(Next(s, t, RetireTake))
  {
    RolesKeepAlive(s, t);
    var o := s.threads[t].o;
    var id := s.heap[o].id;
    var found := FindId(s.table, id);
    CountAtLeast(s.threads, t, Flight, o);
    if found.Some? {
      FoundIsListed(s, id, found.value);
      assert found.value == o;
    }
    forall e | e in s.cbs ensures Admits(s, RetireDrop(o, found), e) {
      assert Admits(s, s.threads[t], e);
    }
    KeepsTaking(s, t, id, RetireDrop(o, found));
  }

  lemma KeepsRegisterCmd(s: State, t: nat)
    requires Inv(s) && Enabled(s, t, RegisterCmd)
    ensures Inv(Next(s, t, RegisterCmd))
  {
    RolesKeepAlive(s, t);
    var o := s.threads[t].o;
    if |s.table| < s.cmdCapacity {
      KeepsListing(s, t);
    } else {
      forall e | e in s.cbs ensures Admits(s, DropRegistration(o), e) {
        assert Admits(s, s.threads[t], e);
      }
      KeepsMoving(s, t, DropRegistration(o));
    }
  }

  lemma KeepsListing(s: State, t: nat)
    requires Inv(s) && t < |s.threads| && s.threads[t].Created?
    ensures var o := s.threads[t].o;
            Inv(s.(table := s.table + [CmdInfo(s.heap[o].id, o)]).At(t, Early(o)))
  {
    var o := s.threads[t].o;
    var s' := s.(table := s.table + [CmdInfo(s.heap[o].id, o)]).At(t, Early(o));
    ListingAccounts(s, t);
    NothingReaches(s, t);
    assert Typed(s');
    MovedCleared(s, s', t, Early(o));
    MovedStarted(s, s', t, Early(o));
    MovedUnheard(s, s', t, Early(o));
  }

  lemma ListingAccounts(s: State, t: nat)
    requires Inv(s) && t < |s.threads| && s.threads[t].Created?
    ensures var o := s.threads[t].o;
            Counted(s.(table := s.table + [CmdInfo(s.heap[o].id, o)]).At(t, Early(o)))
  {
    var o := s.threads[t].o;
    var e := CmdInfo(s.heap[o].id, o);
    var s' := s.(table := s.table + [e]).At(t, Early(o));
    CountAtLeast(s.threads, t, Owner, o);
    forall p | 0 <= p < |s'.heap| ensures Accounted(s', p) {
      assert Accounted(s, p);
      EntriesAppend(s.table, e, p);
      MovedAccount(s, t, Early(o), p);
    }
  }

  /** No event can reach a command that is just created, and none is on its way to it. */
  lemma NothingReaches(s: State, t: nat)
    requires Inv(s) && t < |s.threads| && s.threads[t].Created?
    ensures forall e :: e in s.cbs ==> e.arg != s.threads[t].o
    ensures Count(s.threads, Flight, s.threads[t].o) == 0
  {
    forall e | e in s.cbs ensures e.arg != s.threads[t].o {
      assert Admits(s, s.threads[t], e);
    }
  }

  // ---------------------------------------------------------------- steps on a reference count

  /** The thread t has moved to pc and the counts of the command o have changed, nothing else. */
  ghost predicate Rewrote(s: State, s': State, t: nat, pc: Pc, o: Ref) {
    && t < |s.threads| && o < |s.heap|
    && s' == s.(threads := s.threads[t := pc], heap := s'.heap)
    && |s'.heap| == |s.heap|
    && (forall p :: 0 <= p < |s.heap| && p != o ==> s'.heap[p] == s.heap[p])
    && s'.heap[o].id == s.heap[o].id && s'.heap[o].kind == s.heap[o].kind
    && TypedPc(s, pc) && !pc.RetireDrop? && !pc.Created? && !Starting(pc) && !Starting(s.threads[t])
    && (forall role, p: Ref :: p != o ==> !Plays(pc, role, p) && !Plays(s.threads[t], role, p))
  }

  lemma RewroteCounted(s: State, s': State, t: nat, pc: Pc, o: Ref)
    requires Rewrote(s, s', t, pc, o) && Counted(s) && Accounted(s', o)
    ensures Counted(s')
  {
    forall p | 0 <= p < |s'.heap| ensures Accounted(s', p) {
      if p != o {
        assert Accounted(s, p);
        MovedAccount(s, t, pc, p);
      }
    }
  }

  lemma RewroteTyped(s: State, s': State, t: nat, pc: Pc, o: Ref)
    requires Rewrote(s, s', t, pc, o) && Typed(s)
    ensures Typed(s')
  {
    forall p | 0 <= p < |s'.heap| ensures s'.heap[p].kind == s.heap[p].kind && s'.heap[p].id == s.heap[p].id {}
    forall u | 0 <= u < |s'.threads| ensures TypedPc(s', s'.threads[u]) {
      if u != t {
        assert TypedPc(s, s.threads[u]);
      }
    }
  }

  lemma RewroteCleared(s: State, s': State, t: nat, pc: Pc, o: Ref)
    requires Rewrote(s, s', t, pc, o) && Typed(s) && Typed(s') && Cleared(s)
    requires pc.Free? || pc.InHandler? || pc.Signal?
    ensures Cleared(s')
  {
    forall u, e | 0 <= u < |s'.threads| && e in s'.cbs ensures Admits(s', s'.threads[u], e) {
      if u != t {
        assert Admits(s, s.threads[u], e);
      }
    }
  }

  lemma RewroteFlight(s: State, s': State, t: nat, pc: Pc, o: Ref)
    requires Rewrote(s, s', t, pc, o) && Inv(s) && Typed(s')
    requires Plays(pc, Flight, o) && !Plays(s.threads[t], Flight, o) ==> exists e :: e in s.cbs && e.arg == o
    ensures StartedBeforeRetiring(s') && Unheard(s')
  {
    forall p | 0 <= p < |s'.heap| && s'.heap[p].kind.selfRetires && Count(s'.threads, Starter, p) > 0
      ensures Count(s'.threads, Flight, p) == 0 && forall e :: e in s'.cbs ==> e.arg != p
    {
      CountUpdate(s.threads, t, pc, Starter, p);
      CountUpdate(s.threads, t, pc, Flight, p);
    }
    forall u | 0 <= u < |s'.threads| && s'.threads[u].Created?
      ensures Count(s'.threads, Flight, s'.threads[u].o) == 0
    {
      CountUpdate(s.threads, t, pc, Flight, s'.threads[u].o);
      assert forall e :: e in s.cbs ==> Admits(s, s.threads[u], e);
    }
  }

  lemma KeepsRewriting(s: State, s': State, t: nat, pc: Pc, o: Ref)
    requires Inv(s) && Rewrote(s, s', t, pc, o) && Accounted(s', o)
    requires pc.Free? || pc.InHandler? || pc.Signal?
    requires s'.heap[o].refs > 0 ==> s.heap[o].refs > 0
    requires s'.heap[o].dropped > s.heap[o].dropped ==> forall e :: e in s.cbs ==> e.arg != o
    requires s'.heap[o].dropped >= s.heap[o].dropped
    requires Plays(pc, Flight, o) && !Plays(s.threads[t], Flight, o) ==> exists e :: e in s.cbs && e.arg == o
    ensures Inv(s')
  {
    RewroteCounted(s, s', t, pc, o);
    RewroteTyped(s, s', t, pc, o);
    RewroteCleared(s, s', t, pc, o);
    RewroteFlight(s, s', t, pc, o);
    forall e | e in s'.cbs ensures s'.heap[e.arg].dropped == 0 && e.key in s'.heap[e.arg].kind.keys {
      assert s.heap[e.arg].dropped == 0;
    }
  }

  /** The rewriting that lets the first reference go, or the one of a dispatch. */
  lemma ReleaseRewrites(s: State, s': State, t: nat, o: Ref)
    requires Typed(s) && t < |s.threads| && !s.bad && o < |s.heap| && s.heap[o].freed == 0
    requires (s.threads[t] == DropRegistration(o) && s' == Next(s, t, Drop))
          || (s.threads[t] == DropDispatch(o) && s' == Next(s, t, EndDispatch))
    ensures Rewrote(s, s', t, Free, o)
    ensures var c := s.heap[o];
            s'.heap[o] == c.(refs := c.refs - 1, freed := Bit(c.refs == 1),
                             dropped := c.dropped + Bit(s.threads[t].DropRegistration?))
  {}

  lemma KeepsDrop(s: State, t: nat)
    requires Inv(s) && Enabled(s, t, Drop)
    ensures Inv(Next(s, t, Drop))
  {
    RolesKeepAlive(s, t);
    var o := s.threads[t].o;
    var s' := Next(s, t, Drop);
    assert Accounted(s, o);
    CountAtLeast(s.threads, t, Owner, o);
    MovedAccount(s, t, Free, o);
    ReleaseRewrites(s, s', t, o);
    forall e | e in s.cbs ensures e.arg != o {
      assert Admits(s, s.threads[t], e);
    }
    KeepsRewriting(s, s', t, Free, o);
  }

  lemma KeepsDispatch(s: State, t: nat, key: Key)
    requires Inv(s) && Enabled(s, t, Dispatch(key))
    ensures Inv(Next(s, t, Dispatch(key)))
  {
    var q := Queue(s.cbs, key);
    QueueMembers(s.cbs, key);
    if q != [] {
      var o := q[0].arg;
      assert q[0] in s.cbs;
      assert Accounted(s, o);
      MovedAccount(s, t, InHandler(o), o);
      KeepsRewriting(s, Next(s, t, Dispatch(key)), t, InHandler(o), o);
    }
  }

  lemma KeepsEndDispatch(s: State, t: nat)
    requires Inv(s) && Enabled(s, t, EndDispatch)
    ensures Inv(Next(s, t, EndDispatch))
  {
    RolesKeepAlive(s, t);
    var o := s.threads[t].o;
    assert Accounted(s, o);
    CountAtLeast(s.threads, t, Flight, o);
    MovedAccount(s, t, Free, o);
    ReleaseRewrites(s, Next(s, t, EndDispatch), t, o);
    KeepsRewriting(s, Next(s, t, EndDispatch), t, Free, o);
  }

  lemma KeepsRetireRelease(s: State, t: nat)
    requires Inv(s) && Enabled(s, t, RetireRelease)
    ensures Inv(Next(s, t, RetireRelease))
  {
    RolesKeepAlive(s, t);
    var pc := s.threads[t];
    var o := pc.o;
    forall e | e in s.cbs ensures e.arg != o {
      assert Admits(s, pc, e);
    }
    if pc.found.Some? {
      assert Accounted(s, o);
      CountAtLeast(s.threads, t, Owner, o);
      CountAtLeast(s.threads, t, Flight, o);
      MovedAccount(s, t, Signal(o), o);
      KeepsRewriting(s, Next(s, t, RetireRelease), t, Signal(o), o);
    } else {
      KeepsMoving(s, t, Signal(o));
    }
  }

  // ---------------------------------------------------------------- a new command

  lemma {:induction false} NotCounted(threads: seq<Pc>, role: Role, o: Ref)
    requires forall t :: 0 <= t < |threads| ==> !Plays(threads[t], role, o)
    ensures Count(threads, role, o) == 0
  {
    if threads == [] {
    } else {
      assert !Plays(threads[0], role, o);
      forall t | 0 <= t < |threads[1..]| ensures !Plays(threads[1..][t], role, o) {
        assert threads[1..][t] == threads[t + 1];
      }
      NotCounted(threads[1..], role, o);
    }
  }

  lemma NotYetCounted(s: State, o: Ref)
    requires Typed(s) && o >= |s.heap|
    ensures forall role :: Count(s.threads, role, o) == 0
    ensures Entries(s.table, o) == 0
  {
    forall role ensures Count(s.threads, role, o) == 0 {
      forall t | 0 <= t < |s.threads| ensures !Plays(s.threads[t], role, o) {
        assert TypedPc(s, s.threads[t]);
      }
      NotCounted(s.threads, role, o);
    }
    if Entries(s.table, o) > 0 {
      CountedEntry(s.table, o);
    }
  }

  lemma NewTyped(s: State, t: nat, id: int, kind: Kind)
    requires Inv(s) && Enabled(s, t, New(id, kind)) && GoodKind(kind)
    ensures Typed(Next(s, t, New(id, kind))) && Cleared(Next(s, t, New(id, kind)))
  {
    var s' := Next(s, t, New(id, kind));
    forall u | 0 <= u < |s'.threads| ensures TypedPc(s', s'.threads[u]) {
      if u != t {
        assert TypedPc(s, s.threads[u]);
      }
    }
    forall u, e | 0 <= u < |s'.threads| && e in s'.cbs ensures Admits(s', s'.threads[u], e) {
      if u != t {
        assert Admits(s, s.threads[u], e);
      }
    }
  }

  lemma NewCounted(s: State, t: nat, id: int, kind: Kind)
    requires Inv(s) && Enabled(s, t, New(id, kind)) && GoodKind(kind)
    ensures Counted(Next(s, t, New(id, kind))) && Unheard(Next(s, t, New(id, kind)))
  {
    var s' := Next(s, t, New(id, kind));
    var o := |s.heap|;
    NotYetCounted(s, o);
    forall p | 0 <= p < |s'.heap| ensures Accounted(s', p) {
      MovedAccount(s, t, Created(o), p);
      if p != o {
        assert Accounted(s, p);
      }
    }
    forall u | 0 <= u < |s'.threads| && s'.threads[u].Created?
      ensures Count(s'.threads, Flight, s'.threads[u].o) == 0
    {
      MovedAccount(s, t, Created(o), s'.threads[u].o);
    }
  }

  lemma NewIsFresh(s: State, t: nat, id: int, kind: Kind)
    requires Inv(s) && Enabled(s, t, New(id, kind)) && Disciplined(s, t, New(id, kind))
    ensures OwnIds(Next(s, t, New(id, kind))) && FoundItself(Next(s, t, New(id, kind)))
  {}

  lemma NewStarted(s: State, t: nat, id: int, kind: Kind)
    requires Inv(s) && Enabled(s, t, New(id, kind)) && Typed(Next(s, t, New(id, kind)))
    ensures StartedBeforeRetiring(Next(s, t, New(id, kind)))
  {
    var s' := Next(s, t, New(id, kind));
    forall o | 0 <= o < |s'.heap| && s'.heap[o].kind.selfRetires && Count(s'.threads, Starter, o) > 0
      ensures Count(s'.threads, Flight, o) == 0 && forall e :: e in s'.cbs ==> e.arg != o
    {
      NotYetCounted(s, |s.heap|);
      MovedAccount(s, t, Created(|s.heap|), o);
    }
  }

  lemma KeepsNew(s: State, t: nat, id: int, kind: Kind)
    requires Inv(s) && Enabled(s, t, New(id, kind)) && Disciplined(s, t, New(id, kind))
    ensures Inv(Next(s, t, New(id, kind)))
  {
    NewTyped(s, t, id, kind);
    NewCounted(s, t, id, kind);
    NewIsFresh(s, t, id, kind);
    NewStarted(s, t, id, kind);
  }

  // ---------------------------------------------------------------- runs

  /** Whatever the next step of whatever thread is, the invariant holds after it. */
  lemma StepKeepsInv(s: State, t: nat, step: Step)
    requires Inv(s) && Enabled(s, t, step) && Disciplined(s, t, step)
    ensures Inv(Next(s, t, step))
  {
    match step
    case New(id, kind) => KeepsNew(s, t, id, kind);
    case RegisterCmd => KeepsRegisterCmd(s, t);
    case EarlyResult(ok, unregister) => KeepsEarlyResult(s, t, ok, unregister);
    case RegisterHandler => KeepsRegisterHandler(s, t);
    case LateResult(ok) => KeepsLateResult(s, t, ok);
    case UnregisterFailed => KeepsUnregisterFailed(s, t);
    case UnregisterFailedCmd => KeepsUnregisterFailedCmd(s, t);
    case Drop => KeepsDrop(s, t);
    case BeginCancel(id) => KeepsBeginCancel(s, t, id);
    case UnregisterCancelled => KeepsUnregisterCancelled(s, t);
    case CancelSelf => KeepsCancelSelf(s, t);
    case Dispatch(key) => KeepsDispatch(s, t, key);
    case Handle(completes) => KeepsHandle(s, t, completes);
    case RetireUnregister => KeepsRetireUnregister(s, t);
    case RetireTake => KeepsRetireTake(s, t);
    case RetireRelease => KeepsRetireRelease(s, t);
    case Wake => KeepsWake(s, t);
    case EndDispatch => KeepsEndDispatch(s, t);
    case RemoveCallback(key) => KeepsRemoving(s, key);
  }

  datatype Move = Move(thread: nat, step: Step)

  predicate Follows(s: State, moves: seq<Move>)
    decreases |moves|
  {
    moves != [] ==>
      && Typed(s)
      && Enabled(s, moves[0].thread, moves[0].step)
      && Follows(Next(s, moves[0].thread, moves[0].step), moves[1..])
  }

  function End(s: State, moves: seq<Move>): State
    requires Follows(s, moves)
    decreases |moves|
  {
    if moves == [] then s else End(Next(s, moves[0].thread, moves[0].step), moves[1..])
  }

  predicate AllDisciplined(s: State, moves: seq<Move>)
    requires Follows(s, moves)
    decreases |moves|
  {
    moves != [] ==>
      && Disciplined(s, moves[0].thread, moves[0].step)
      && AllDisciplined(Next(s, moves[0].thread, moves[0].step), moves[1..])
  }

  function Idle(n: nat): (s: seq<Pc>)
    ensures |s| == n && forall t :: 0 <= t < n ==> s[t] == Free
  {
    if n == 0 then [] else [Free] + Idle(n - 1)
  }

  /** wifi_initialize: both tables are empty. */
  function Initial(threads: nat, cbCapacity: nat, cmdCapacity: nat): State {
    State([], [], [], Idle(threads), cbCapacity, cmdCapacity, false)
  }

  lemma {:induction false} RunKeepsInv(s: State, moves: seq<Move>)
    requires Inv(s) && Follows(s, moves) && AllDisciplined(s, moves)
    ensures Inv(End(s, moves))
    decreases |moves|
  {
    if moves == [] {
    } else {
      StepKeepsInv(s, moves[0].thread, moves[0].step);
      RunKeepsInv(Next(s, moves[0].thread, moves[0].step), moves[1..]);
    }
  }

  /** No step has used a freed command; a command's count is its first reference, if that has not been dropped, plus
      the dispatches under way; it has been freed once if the count is 0 and not at all otherwise; its first reference
      has been dropped at most once; and whatever an event is dispatched to is a live command that still has it. */
  predicate Safe(s: State) {
    && !s.bad
    && (forall o :: 0 <= o < |s.heap| ==>
          && s.heap[o].refs == 1 - s.heap[o].dropped + Count(s.threads, Flight, o)
          && s.heap[o].dropped <= 1
          && s.heap[o].freed == Bit(s.heap[o].refs == 0))
    && (forall e :: e in s.cbs ==> e.arg < |s.heap| && s.heap[e.arg].dropped == 0 && s.heap[e.arg].refs > 0)
  }

  lemma InvIsSafe(s: State)
    requires Inv(s)
    ensures Safe(s)
  {
    forall o | 0 <= o < |s.heap|
      ensures s.heap[o].refs == 1 - s.heap[o].dropped + Count(s.threads, Flight, o)
      ensures s.heap[o].dropped <= 1 && s.heap[o].freed == Bit(s.heap[o].refs == 0)
    {
      assert Accounted(s, o);
    }
  }

  lemma InitialInv(threads: nat, cbCapacity: nat, cmdCapacity: nat)
    ensures Inv(Initial(threads, cbCapacity, cmdCapacity))
  {}

  /** Every run of any number of threads, however they interleave, ends in a safe state. */
  lemma EveryInterleavingIsSafe(threads: nat, cbCapacity: nat, cmdCapacity: nat, moves: seq<Move>)
    requires Follows(Initial(threads, cbCapacity, cmdCapacity), moves)
    requires AllDisciplined(Initial(threads, cbCapacity, cmdCapacity), moves)
    ensures Safe(End(Initial(threads, cbCapacity, cmdCapacity), moves))
  {
    var begin := Initial(threads, cbCapacity, cmdCapacity);
    InitialInv(threads, cbCapacity, cmdCapacity);
    RunKeepsInv(begin, moves);
    InvIsSafe(End(begin, moves));
  }

  predicate AllCallerChecked(s: State, moves: seq<Move>)
    requires Follows(s, moves)
    decreases |moves|
  {
    moves != [] ==>
      && CallerChecked(s, moves[0].thread, moves[0].step)
      && AllCallerChecked(Next(s, moves[0].thread, moves[0].step), moves[1..])
  }

  /** What a caller can check is enough: an id that is not outstanding is claimed by ranging commands at most. */
  lemma CheckingIsEnough(s: State, t: nat, step: Step)
    requires Inv(s) && CallerChecked(s, t, step)
    ensures Disciplined(s, t, step)
  {
    if step.New? {
      forall o | 0 <= o < |s.heap| && Claims(s.heap[o]) ensures s.heap[o].id != step.id {
        if !s.heap[o].kind.selfRetires {
          FirstReferenceIsOutstanding(s, o, step.id);
        }
      }
    }
  }

  lemma FirstReferenceIsOutstanding(s: State, o: Ref, id: int)
    requires Inv(s) && o < |s.heap| && s.heap[o].dropped == 0 && !s.heap[o].kind.selfRetires && NotOutstanding(s, id)
    ensures s.heap[o].id != id
  {
    assert Accounted(s, o);
    if Entries(s.table, o) >= 1 {
      CountedEntry(s.table, o);
    } else {
      CountWitness(s.threads, Owner, o);
      var t :| 0 <= t < |s.threads| && Plays(s.threads[t], Owner, o);
      assert TypedPc(s, s.threads[t]);
    }
  }

  lemma {:induction false} CheckedRunsAreDisciplined(s: State, moves: seq<Move>)
    requires Inv(s) && Follows(s, moves) && AllCallerChecked(s, moves)
    ensures AllDisciplined(s, moves)
    decreases |moves|
  {
    if moves == [] {
    } else {
      var m := moves[0];
      CheckingIsEnough(s, m.thread, m.step);
      StepKeepsInv(s, m.thread, m.step);
      CheckedRunsAreDisciplined(Next(s, m.thread, m.step), moves[1..]);
    }
  }

  /** So every run of callers who never use the id of a ranging command again, nor any id that is outstanding, ends in
      a safe state. */
  lemma CheckedInterleavingsAreSafe(threads: nat, cbCapacity: nat, cmdCapacity: nat, moves: seq<Move>)
    requires Follows(Initial(threads, cbCapacity, cmdCapacity), moves)
    requires AllCallerChecked(Initial(threads, cbCapacity, cmdCapacity), moves)
    ensures Safe(End(Initial(threads, cbCapacity, cmdCapacity), moves))
  {
    InitialInv(threads, cbCapacity, cmdCapacity);
    CheckedRunsAreDisciplined(Initial(threads, cbCapacity, cmdCapacity), moves);
    EveryInterleavingIsSafe(threads, cbCapacity, cmdCapacity, moves);
  }

  /** Of the two that may take a command out of the table, a cancel and the command's own completion, only one gets
      it: when one thread owes the release of the first reference, no other does and the table does not list it. */
  lemma OnlyOneTakesACommand(s: State, t: nat, o: Ref)
    requires Inv(s) && t < |s.threads| && Plays(s.threads[t], Owner, o)
    ensures o < |s.heap| && s.heap[o].dropped == 0
    ensures forall u :: 0 <= u < |s.threads| && u != t ==> !Plays(s.threads[u], Owner, o)
    ensures forall e :: e in s.table ==> e.cmd != o
  {
    CountAtLeast(s.threads, t, Owner, o);
    assert TypedPc(s, s.threads[t]);
    assert Accounted(s, o);
    forall u | 0 <= u < |s.threads| && u != t ensures !Plays(s.threads[u], Owner, o) {
      if Plays(s.threads[u], Owner, o) {
        if t < u {
          CountTwo(s.threads, t, u, Owner, o);
        } else {
          CountTwo(s.threads, u, t, Owner, o);
        }
      }
    }
    forall e | e in s.table ensures e.cmd != o {
      EntryCounts(s.table, e);
    }
  }

  /** And one does get it: a command that is no longer listed is owed by exactly one thread, or has been dropped. */
  lemma OneSideDropsACommand(s: State, o: Ref)
    requires Inv(s) && o < |s.heap| && forall e :: e in s.table ==> e.cmd != o
    ensures s.heap[o].dropped == 1 <==> forall t :: 0 <= t < |s.threads| ==> !Plays(s.threads[t], Owner, o)
    ensures s.heap[o].dropped <= 1
  {
    assert Accounted(s, o);
    if Entries(s.table, o) > 0 {
      CountedEntry(s.table, o);
    }
    if Count(s.threads, Owner, o) > 0 {
      CountWitness(s.threads, Owner, o);
    } else {
      forall t | 0 <= t < |s.threads| ensures !Plays(s.threads[t], Owner, o) {
        if Plays(s.threads[t], Owner, o) {
          CountAtLeast(s.threads, t, Owner, o);
        }
      }
    }
  }

  /** The release inside a command's own handler never frees it, so the signal that follows is on a live command. */
  lemma RetiringNeverFrees(s: State, t: nat)
    requires Inv(s) && Enabled(s, t, RetireRelease)
    ensures var o := s.threads[t].o;
            var s' := Next(s, t, RetireRelease);
            s'.heap[o].refs > 0 && s'.heap[o].freed == 0 && s'.threads[t] == Signal(o)
  {
    KeepsRetireRelease(s, t);
    RolesKeepAlive(Next(s, t, RetireRelease), t);
  }
}
