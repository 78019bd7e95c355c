/** The two tables of the HAL: registered event callbacks and outstanding commands. */
module HandlerTables {
  import opened Bytes
  import opened Sequences

  const NL80211_CMD_VENDOR: int := 103
  const GOOGLE_OUI: u32 := 0x001A11

  /** What an event is matched by. */
  datatype Key = Key(nlCmd: int, vendorId: u32, subcmd: int)

  datatype CbInfo<A> = CbInfo(key: Key, func: int, arg: A)
  datatype CmdInfo<A> = CmdInfo(id: int, cmd: A)

  /** Both table operations that add an entry refuse it with this when the table is full. */
  datatype Status = WifiSuccess | OutOfMemory

  // ---------------------------------------------------------------- the tables as sequences

  function Append<T>(s: seq<T>, capacity: nat, e: T): seq<T> {
    if |s| < capacity then s + [e] else s
  }

  /** The table without its first entry for the key. */
  function RemoveKey<A>(s: seq<CbInfo<A>>, k: Key): seq<CbInfo<A>> {
    if s == [] then []
    else if s[0].key == k then s[1..]
    else [s[0]] + RemoveKey(s[1..], k)
  }

  function RemoveId<A>(s: seq<CmdInfo<A>>, id: int): seq<CmdInfo<A>> {
    if s == [] then []
    else if s[0].id == id then s[1..]
    else [s[0]] + RemoveId(s[1..], id)
  }

  function RemoveCmd<A(==)>(s: seq<CmdInfo<A>>, cmd: A): seq<CmdInfo<A>> {
    if s == [] then []
    else if s[0].cmd == cmd then s[1..]
    else [s[0]] + RemoveCmd(s[1..], cmd)
  }

  function FindId<A>(s: seq<CmdInfo<A>>, id: int): Option<A> {
    if s == [] then None
    else if s[0].id == id then Some(s[0].cmd)
    else FindId(s[1..], id)
  }

  /** The entries for one key, oldest first. */
  function Queue<A>(s: seq<CbInfo<A>>, k: Key): seq<CbInfo<A>> {
    if s == [] then []
    else if s[0].key == k then [s[0]] + Queue(s[1..], k)
    else Queue(s[1..], k)
  }

  lemma {:induction false} QueueAppend<A>(s: seq<CbInfo<A>>, e: CbInfo<A>, k: Key)
    ensures Queue(s + [e], k) == if e.key == k then Queue(s, k) + [e] else Queue(s, k)
  {
    if s == [] {
      assert s + [e] == [e];
    } else {
      assert (s + [e])[1..] == s[1..] + [e];
      QueueAppend(s[1..], e, k);
    }
  }

  /** Removing takes the oldest entry of its own key and leaves the queues of all others alone. */
  lemma {:induction false} QueueRemove<A>(s: seq<CbInfo<A>>, removed: Key, k: Key)
    ensures Queue(RemoveKey(s, removed), k)
         == if removed == k && Queue(s, k) != [] then Queue(s, k)[1..] else Queue(s, k)
  {
    if s == [] || s[0].key == removed {
    } else {
      QueueRemove(s[1..], removed, k);
      assert ([s[0]] + RemoveKey(s[1..], removed))[1..] == RemoveKey(s[1..], removed);
    }
  }

  /** Where the first entry for the key is. */
  lemma {:induction false} RemoveKeyAt<A>(s: seq<CbInfo<A>>, k: Key, i: nat)
    requires i <= |s| && forall j :: 0 <= j < i ==> s[j].key != k
    requires i < |s| ==> s[i].key == k
    ensures RemoveKey(s, k) == if i < |s| then s[..i] + s[i + 1..] else s
    ensures Queue(s, k) == if i < |s| then [s[i]] + Queue(s[i + 1..], k) else []
  {
    if s == [] || i == 0 {
    } else {
      HeadAndTail(s);
      if i < |s| {
        LeaveOutOfTail(s, i);
        assert s[1..][i..] == s[i + 1..];
      }
      RemoveKeyAt(s[1..], k, i - 1);
    }
  }

  lemma {:induction false} RemoveIdAt<A>(s: seq<CmdInfo<A>>, id: int, i: nat)
    requires i <= |s| && forall j :: 0 <= j < i ==> s[j].id != id
    requires i < |s| ==> s[i].id == id
    ensures RemoveId(s, id) == if i < |s| then s[..i] + s[i + 1..] else s
    ensures FindId(s, id) == if i < |s| then Some(s[i].cmd) else None
  {
    if s == [] || i == 0 {
    } else {
      HeadAndTail(s);
      if i < |s| {
        LeaveOutOfTail(s, i);
      }
      RemoveIdAt(s[1..], id, i - 1);
    }
  }

  lemma {:induction false} RemoveCmdAt<A>(s: seq<CmdInfo<A>>, cmd: A, i: nat)
    requires i <= |s| && forall j :: 0 <= j < i ==> s[j].cmd != cmd
    requires i < |s| ==> s[i].cmd == cmd
    ensures RemoveCmd(s, cmd) == if i < |s| then s[..i] + s[i + 1..] else s
  {
    if s == [] || i == 0 {
    } else {
      HeadAndTail(s);
      if i < |s| {
        LeaveOutOfTail(s, i);
      }
      RemoveCmdAt(s[1..], cmd, i - 1);
    }
  }

  // ---------------------------------------------------------------- histories

  datatype Op<A> =
    | Register(nlCmd: int, func: int, arg: A)
    | RegisterVendor(vendorId: u32, subcmd: int, func: int, arg: A)
    | Unregister(nlCmd: int)
    | UnregisterVendor(vendorId: u32, subcmd: int)
  {
    /** The key an operation is about; removing by the vendor command alone is refused and is about none. */
    function Target(): Option<Key> {
      match this
      case Register(nlCmd, _, _) => Some(Key(nlCmd, 0, 0))
      case RegisterVendor(id, subcmd, _, _) => Some(Key(NL80211_CMD_VENDOR, id, subcmd))
      case Unregister(nlCmd) => if nlCmd == NL80211_CMD_VENDOR then None else Some(Key(nlCmd, 0, 0))
      case UnregisterVendor(id, subcmd) => Some(Key(NL80211_CMD_VENDOR, id, subcmd))
    }
  }

  function Apply<A>(s: seq<CbInfo<A>>, capacity: nat, op: Op<A>): seq<CbInfo<A>> {
    match op
    case Register(nlCmd, func, arg) => Append(s, capacity, CbInfo(Key(nlCmd, 0, 0), func, arg))
    case RegisterVendor(id, subcmd, func, arg) =>
      Append(s, capacity, CbInfo(Key(NL80211_CMD_VENDOR, id, subcmd), func, arg))
    case Unregister(nlCmd) => if nlCmd == NL80211_CMD_VENDOR then s else RemoveKey(s, Key(nlCmd, 0, 0))
    case UnregisterVendor(id, subcmd) => RemoveKey(s, Key(NL80211_CMD_VENDOR, id, subcmd))
  }

  function Replay<A>(s: seq<CbInfo<A>>, capacity: nat, ops: seq<Op<A>>): seq<CbInfo<A>>
    decreases |ops|
  {
    if ops == [] then s else Replay(Apply(s, capacity, ops[0]), capacity, ops[1..])
  }

  /** What a first-in-first-out queue is told. */
  datatype QueueOp<A> = Push(entry: CbInfo<A>) | Pop

  function Fifo<A>(q: seq<CbInfo<A>>, ops: seq<QueueOp<A>>): seq<CbInfo<A>>
    decreases |ops|
  {
    if ops == [] then q
    else
      match ops[0]
      case Push(e) => Fifo(q + [e], ops[1..])
      case Pop => Fifo(if q == [] then [] else q[1..], ops[1..])
  }

  /** The part of a history that one key's queue sees: the registrations for it that find room, and the removals. */
  function Project<A>(s: seq<CbInfo<A>>, capacity: nat, ops: seq<Op<A>>, k: Key): seq<QueueOp<A>>
    decreases |ops|
  {
    if ops == [] then []
    else
      var rest := Project(Apply(s, capacity, ops[0]), capacity, ops[1..], k);
      if ops[0].Target() != Some(k) then rest
      else
        match ops[0]
        case Register(_, func, arg) => if |s| < capacity then [Push(CbInfo(k, func, arg))] + rest else rest
        case RegisterVendor(_, _, func, arg) => if |s| < capacity then [Push(CbInfo(k, func, arg))] + rest else rest
        case _ => [Pop] + rest
  }

  /** Over every history the table behaves, for each key, as a first-in-first-out queue of its own. */
  lemma {:induction false} TableIsFifoPerKey<A>(s: seq<CbInfo<A>>, capacity: nat, ops: seq<Op<A>>, k: Key)
    ensures Queue(Replay(s, capacity, ops), k) == Fifo(Queue(s, k), Project(s, capacity, ops, k))
    decreases |ops|
  {
    if ops == [] {
    } else {
      var t := Apply(s, capacity, ops[0]);
      TableIsFifoPerKey(t, capacity, ops[1..], k);
      ProjectUnfolds(s, capacity, ops, k);
      match ops[0] {
        case Register(nlCmd, func, arg) => QueueAppend(s, CbInfo(Key(nlCmd, 0, 0), func, arg), k);
        case RegisterVendor(id, subcmd, func, arg) =>
          QueueAppend(s, CbInfo(Key(NL80211_CMD_VENDOR, id, subcmd), func, arg), k);
        case Unregister(nlCmd) => QueueRemove(s, Key(nlCmd, 0, 0), k);
        case UnregisterVendor(id, subcmd) => QueueRemove(s, Key(NL80211_CMD_VENDOR, id, subcmd), k);
      }
    }
  }

  /** The first queue operation comes from the first operation. */
  lemma ProjectUnfolds<A>(s: seq<CbInfo<A>>, capacity: nat, ops: seq<Op<A>>, k: Key)
    requires ops != []
    ensures var rest := Project(Apply(s, capacity, ops[0]), capacity, ops[1..], k);
            var q := Queue(s, k);
            Fifo(q, Project(s, capacity, ops, k)) ==
            (if ops[0].Target() != Some(k) then Fifo(q, rest)
             else if ops[0].Register? || ops[0].RegisterVendor? then
               (if |s| < capacity then Fifo(q + [CbInfo(k, ops[0].func, ops[0].arg)], rest) else Fifo(q, rest))
             else Fifo(if q == [] then [] else q[1..], rest))
  {
    var rest := Project(Apply(s, capacity, ops[0]), capacity, ops[1..], k);
    forall x: QueueOp<A> ensures ([x] + rest)[1..] == rest {}
  }

  /** Entries for anything but the vendor command carry no vendor id: only the vendor call stores one. */
  predicate Plain<A>(s: seq<CbInfo<A>>) {
    forall i :: 0 <= i < |s| && s[i].key.nlCmd != NL80211_CMD_VENDOR ==> s[i].key == Key(s[i].key.nlCmd, 0, 0)
  }

  lemma {:induction false} RemoveKeyKeeps<A>(s: seq<CbInfo<A>>, k: Key)
    ensures |RemoveKey(s, k)| <= |s|
    ensures forall e :: e in RemoveKey(s, k) ==> e in s
  {
    if s == [] || s[0].key == k {
    } else {
      RemoveKeyKeeps(s[1..], k);
    }
  }

  /** In every reachable state of the table it fits its capacity and is plain. */
  lemma {:induction false} ReachableTable<A>(s: seq<CbInfo<A>>, capacity: nat, ops: seq<Op<A>>)
    requires |s| <= capacity && Plain(s)
    ensures |Replay(s, capacity, ops)| <= capacity && Plain(Replay(s, capacity, ops))
    decreases |ops|
  {
    if ops == [] {
    } else {
      match ops[0] {
        case Unregister(nlCmd) => RemoveKeyKeeps(s, Key(nlCmd, 0, 0));
        case UnregisterVendor(id, subcmd) => RemoveKeyKeeps(s, Key(NL80211_CMD_VENDOR, id, subcmd));
        case _ =>
      }
      PlainByMembers(s);
      PlainByMembers(Apply(s, capacity, ops[0]));
      ReachableTable(Apply(s, capacity, ops[0]), capacity, ops[1..]);
    }
  }

  lemma PlainByMembers<A>(s: seq<CbInfo<A>>)
    ensures Plain(s) <==> forall e :: e in s && e.key.nlCmd != NL80211_CMD_VENDOR ==> e.key == Key(e.key.nlCmd, 0, 0)
  {}

  // ---------------------------------------------------------------- the tables in place

  class HalInfo<A(0,==)> {
    const eventCb: array<CbInfo<A>>
    var numEventCb: nat
    const cmd: array<CmdInfo<A>>
    var numCmd: nat

    predicate Valid()
      reads this, eventCb
    {
      && numEventCb <= eventCb.Length
      && numCmd <= cmd.Length
      && Plain(eventCb[..numEventCb])
    }

    function Events(): seq<CbInfo<A>>
      requires Valid()
      reads this, eventCb
    {
      eventCb[..numEventCb]
    }

    function Commands(): seq<CmdInfo<A>>
      requires Valid()
      reads this, eventCb, cmd
    {
      cmd[..numCmd]
    }

    constructor (allocEventCb: nat, allocCmd: nat)
      ensures Valid() && fresh(eventCb) && fresh(cmd)
      ensures eventCb.Length == allocEventCb && cmd.Length == allocCmd
      ensures Events() == [] && Commands() == []
    {
      eventCb := new CbInfo<A>[allocEventCb];
      cmd := new CmdInfo<A>[allocCmd];
      numEventCb, numCmd := 0, 0;
    }

    method RegisterHandler(nlCmd: int, func: int, arg: A) returns (result: Status)
      requires Valid()
      modifies this`numEventCb, eventCb
      ensures Valid()
      ensures result == WifiSuccess <==> |old(Events())| < eventCb.Length
      ensures Events() == Apply(old(Events()), eventCb.Length, Register(nlCmd, func, arg))
    {
      result := OutOfMemory;
      ghost var before := Events();
      if numEventCb < eventCb.Length {
        eventCb[numEventCb] := CbInfo(Key(nlCmd, 0, 0), func, arg);
        numEventCb := numEventCb + 1;
        result := WifiSuccess;
        assert eventCb[..numEventCb] == before + [CbInfo(Key(nlCmd, 0, 0), func, arg)];
      }
    }

    method RegisterVendorHandler(id: u32, subcmd: int, func: int, arg: A) returns (result: Status)
      requires Valid()
      modifies this`numEventCb, eventCb
      ensures Valid()
      ensures result == WifiSuccess <==> |old(Events())| < eventCb.Length
      ensures Events() == Apply(old(Events()), eventCb.Length, RegisterVendor(id, subcmd, func, arg))
    {
      result := OutOfMemory;
      ghost var before := Events();
      if numEventCb < eventCb.Length {
        eventCb[numEventCb] := CbInfo(Key(NL80211_CMD_VENDOR, id, subcmd), func, arg);
        numEventCb := numEventCb + 1;
        result := WifiSuccess;
        assert eventCb[..numEventCb] == before + [CbInfo(Key(NL80211_CMD_VENDOR, id, subcmd), func, arg)];
      }
    }

    /** Closes the gap at i, as memmove does. */
    method DropEvent(i: nat)
      requires Valid() && i < numEventCb
      modifies this`numEventCb, eventCb
      ensures Valid()
      ensures Events() == old(Events())[..i] + old(Events())[i + 1..]
    {
      ghost var before := Events();
      forall j | i <= j < numEventCb - 1 {
        eventCb[j] := eventCb[j + 1];
      }
      numEventCb := numEventCb - 1;
      assert eventCb[..numEventCb] == before[..i] + before[i + 1..];
      PlainByMembers(before);
      PlainByMembers(eventCb[..numEventCb]);
    }

    method UnregisterHandler(nlCmd: int)
      requires Valid()
      modifies this`numEventCb, eventCb
      ensures Valid()
      ensures Events() == Apply(old(Events()), eventCb.Length, Unregister(nlCmd))
    {
      if nlCmd == NL80211_CMD_VENDOR {
        return;
      }
      ghost var before := Events();
      var i := 0;
      while i < numEventCb
        invariant 0 <= i <= numEventCb && Valid() && Events() == before
        invariant forall j :: 0 <= j < i ==> before[j].key != Key(nlCmd, 0, 0)
      {
        if eventCb[i].key.nlCmd == nlCmd {
          assert before[i].key == Key(nlCmd, 0, 0);
          RemoveKeyAt(before, Key(nlCmd, 0, 0), i);
          DropEvent(i);
          return;
        }
        assert before[i].key.nlCmd != nlCmd;
        i := i + 1;
      }
      RemoveKeyAt(before, Key(nlCmd, 0, 0), i);
    }

    method UnregisterVendorHandler(id: u32, subcmd: int)
      requires Valid()
      modifies this`numEventCb, eventCb
      ensures Valid()
      ensures Events() == Apply(old(Events()), eventCb.Length, UnregisterVendor(id, subcmd))
    {
      ghost var before := Events();
      ghost var k := Key(NL80211_CMD_VENDOR, id, subcmd);
      var i := 0;
      while i < numEventCb
        invariant 0 <= i <= numEventCb && Valid() && Events() == before
        invariant forall j :: 0 <= j < i ==> before[j].key != k
      {
        var key := eventCb[i].key;
        assert before[i].key == key;
        if key.nlCmd == NL80211_CMD_VENDOR && key.vendorId == id && key.subcmd == subcmd {
          RemoveKeyAt(before, k, i);
          DropEvent(i);
          return;
        }
        i := i + 1;
      }
      RemoveKeyAt(before, k, i);
    }

    /** The handler an event is dispatched to: the front of the queue of the event's key. */
    method FindHandler(nlCmd: int, vendorId: u32, subcmd: int) returns (entry: Option<CbInfo<A>>)
      requires Valid()
      ensures var k := if nlCmd == NL80211_CMD_VENDOR then Key(nlCmd, vendorId, subcmd) else Key(nlCmd, 0, 0);
              entry == if Queue(Events(), k) == [] then None else Some(Queue(Events(), k)[0])
    {
      ghost var k := if nlCmd == NL80211_CMD_VENDOR then Key(nlCmd, vendorId, subcmd) else Key(nlCmd, 0, 0);
      var i := 0;
      while i < numEventCb
        invariant 0 <= i <= numEventCb
        invariant forall j :: 0 <= j < i ==> Events()[j].key != k
      {
        var key := eventCb[i].key;
        assert Events()[i].key == key;
        if nlCmd == key.nlCmd
          && !(nlCmd == NL80211_CMD_VENDOR && (vendorId != key.vendorId || subcmd != key.subcmd)) {
          RemoveKeyAt(Events(), k, i);
          return Some(eventCb[i]);
        }
        i := i + 1;
      }
      RemoveKeyAt(Events(), k, i);
      return None;
    }

    method RegisterCmd(id: int, c: A) returns (result: Status)
      requires Valid()
      modifies this`numCmd, cmd
      ensures Valid()
      ensures result == WifiSuccess <==> |old(Commands())| < cmd.Length
      ensures Commands() == Append(old(Commands()), cmd.Length, CmdInfo(id, c))
    {
      result := OutOfMemory;
      ghost var before := Commands();
      if numCmd < cmd.Length {
        cmd[numCmd] := CmdInfo(id, c);
        numCmd := numCmd + 1;
        result := WifiSuccess;
        assert cmd[..numCmd] == before + [CmdInfo(id, c)];
      }
    }

    method DropCmd(i: nat)
      requires Valid() && i < numCmd
      modifies this`numCmd, cmd
      ensures Valid()
      ensures Commands() == old(Commands())[..i] + old(Commands())[i + 1..]
    {
      ghost var before := Commands();
      forall j | i <= j < numCmd - 1 {
        cmd[j] := cmd[j + 1];
      }
      numCmd := numCmd - 1;
      assert cmd[..numCmd] == before[..i] + before[i + 1..];
    }

    method UnregisterCmdById(id: int) returns (found: Option<A>)
      requires Valid()
      modifies this`numCmd, cmd
      ensures Valid()
      ensures found == FindId(old(Commands()), id)
      ensures Commands() == RemoveId(old(Commands()), id)
    {
      ghost var before := Commands();
      var i := 0;
      while i < numCmd
        invariant 0 <= i <= numCmd && Valid() && Commands() == before
        invariant forall j :: 0 <= j < i ==> before[j].id != id
      {
        assert before[i] == cmd[i];
        if cmd[i].id == id {
          RemoveIdAt(before, id, i);
          found := Some(cmd[i].cmd);
          DropCmd(i);
          return;
        }
        i := i + 1;
      }
      RemoveIdAt(before, id, i);
      return None;
    }

    method GetCmd(id: int) returns (found: Option<A>)
      requires Valid()
      ensures found == FindId(Commands(), id)
    {
      var i := 0;
      while i < numCmd
        invariant 0 <= i <= numCmd
        invariant forall j :: 0 <= j < i ==> Commands()[j].id != id
      {
        assert Commands()[i] == cmd[i];
        if cmd[i].id == id {
          RemoveIdAt(Commands(), id, i);
          return Some(cmd[i].cmd);
        }
        i := i + 1;
      }
      RemoveIdAt(Commands(), id, i);
      return None;
    }

    method UnregisterCmdByPointer(c: A)
      requires Valid()
      modifies this`numCmd, cmd
      ensures Valid()
      ensures Commands() == RemoveCmd(old(Commands()), c)
    {
      ghost var before := Commands();
      var i := 0;
      while i < numCmd
        invariant 0 <= i <= numCmd && Valid() && Commands() == before
        invariant forall j :: 0 <= j < i ==> before[j].cmd != c
      {
        assert before[i] == cmd[i];
        if cmd[i].cmd == c {
          RemoveCmdAt(before, c, i);
          DropCmd(i);
          return;
        }
        i := i + 1;
      }
      RemoveCmdAt(before, c, i);
    }
  }
}
