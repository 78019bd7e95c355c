/** The packed .bts firmware script: its actions, and the byte cursor that walks them. */
module BtsScript {
  import opened Bytes

  const SEND_COMMAND: u16 := 1
  const WAIT_EVENT: u16 := 2

  const HCI_VSC_UPDATE_BAUDRATE: u16 := 0xFF36
  const HCI_VS_SLP_CFG: u16 := 0xFD0C

  const SCRIPT_HEADER_SIZE: nat := 32
  const ACTION_HEAD_SIZE: nat := 4

  // ---------------------------------------------------------------- the script as a list

  datatype Action = Action(kind: u16, data: seq<byte>) {
    /** A size that fits its field; the data of a command is a prefix byte, an opcode, a length and that many bytes. */
    predicate WellFormed() {
      && |data| < 0x1_0000
      && (kind == SEND_COMMAND ==> |data| >= 4 && |data| >= 4 + (data[3] as int))
    }

    predicate Dropped()
      requires WellFormed()
    {
      && kind == SEND_COMMAND
      && (Opcode() == HCI_VSC_UPDATE_BAUDRATE || Opcode() == HCI_VS_SLP_CFG)
    }

    function Opcode(): u16
      requires WellFormed() && kind == SEND_COMMAND
    {
      (data[1] as int) + 0x100 * (data[2] as int)
    }

    predicate Kept()
      requires WellFormed()
    {
      kind == SEND_COMMAND && !Dropped()
    }

    /** The HCI packet a command carries: its data without the prefix byte. */
    function Packet(): seq<byte>
      requires WellFormed() && kind == SEND_COMMAND
    {
      data[1..4 + (data[3] as int)]
    }

    function Encode(): seq<byte>
      requires WellFormed()
    {
      U16(kind) + U16(|data|) + data
    }
  }

  type GoodAction = a: Action | a.WellFormed() witness Action(WAIT_EVENT, [])

  function Encode(actions: seq<GoodAction>): seq<byte> {
    if actions == [] then [] else actions[0].Encode() + Encode(actions[1..])
  }

  /** The commands the host sends to the controller. */
  function Commands(actions: seq<GoodAction>): (r: seq<GoodAction>)
    ensures forall a :: a in r ==> a.kind == SEND_COMMAND && !a.Dropped()
  {
    if actions == [] then []
    else if actions[0].Kept() then [actions[0]] + Commands(actions[1..])
    else Commands(actions[1..])
  }

  /** The kind of the action that comes first; `tail` is the word found after the last action. */
  function FirstKind(actions: seq<GoodAction>, tail: u16): u16 {
    if actions == [] then tail else actions[0].kind
  }

  /** Every dropped command has a wait-event action right behind it. */
  predicate DropsAwaited(actions: seq<GoodAction>, tail: u16) {
    actions != [] ==>
      && (actions[0].Dropped() ==> FirstKind(actions[1..], tail) == WAIT_EVENT)
      && DropsAwaited(actions[1..], tail)
  }

  datatype Next = Stuck | Done | Found(command: GoodAction, rest: seq<GoodAction>)

  /** The first command that is not dropped, unless a dropped one without its wait event comes before it. */
  function NextCommand(actions: seq<GoodAction>, tail: u16): Next {
    if actions == [] then Done
    else if actions[0].Kept() then Found(actions[0], actions[1..])
    else if actions[0].Dropped() && FirstKind(actions[1..], tail) != WAIT_EVENT then Stuck
    else NextCommand(actions[1..], tail)
  }

  lemma {:induction false} NextCommandIsFirstOfCommands(actions: seq<GoodAction>, tail: u16)
    ensures match NextCommand(actions, tail)
            case Stuck => !DropsAwaited(actions, tail)
            case Done => Commands(actions) == [] && DropsAwaited(actions, tail)
            case Found(command, rest) =>
              && command.Kept()
              && Commands(actions) == [command] + Commands(rest)
              && (DropsAwaited(actions, tail) <==> DropsAwaited(rest, tail))
  {
    if actions == [] || actions[0].Kept() {
    } else {
      NextCommandIsFirstOfCommands(actions[1..], tail);
    }
  }

  /** The k-th action is a dropped command without its wait event, and no kept command and no other such dropped
      command comes before it. */
  predicate StuckAt(actions: seq<GoodAction>, tail: u16, k: nat) {
    && k < |actions|
    && actions[k].Dropped() && FirstKind(actions[k + 1..], tail) != WAIT_EVENT
    && forall j :: 0 <= j < k ==>
         !actions[j].Kept() && (actions[j].Dropped() ==> FirstKind(actions[j + 1..], tail) == WAIT_EVENT)
  }

  /** There is no next command to be had exactly when a dropped command without its wait event comes before the first
      kept one. */
  lemma {:induction false} StuckIffUnawaitedFirst(actions: seq<GoodAction>, tail: u16)
    ensures NextCommand(actions, tail) == Stuck <==> exists k: nat :: StuckAt(actions, tail, k)
  {
    if actions == [] {
    } else if actions[0].Kept() {
      assert forall k: nat :: StuckAt(actions, tail, k) ==> k == 0;
    } else if actions[0].Dropped() && FirstKind(actions[1..], tail) != WAIT_EVENT {
      assert StuckAt(actions, tail, 0);
    } else {
      StuckIffUnawaitedFirst(actions[1..], tail);
      StuckLater(actions, tail);
    }
  }

  lemma StuckLater(actions: seq<GoodAction>, tail: u16)
    requires actions != [] && !actions[0].Kept()
    requires actions[0].Dropped() ==> FirstKind(actions[1..], tail) == WAIT_EVENT
    ensures (exists k: nat :: StuckAt(actions[1..], tail, k)) <==> (exists k: nat :: StuckAt(actions, tail, k))
  {
    var rest := actions[1..];
    if k: nat :| StuckAt(rest, tail, k) {
      forall j | 0 <= j <= k ensures actions[j + 1..][1..] == rest[j + 1..] && actions[j + 1] == rest[j] {}
      forall j | 0 < j <= k + 1 ensures actions[j] == rest[j - 1] && actions[j + 1..] == rest[j..] {}
      assert StuckAt(actions, tail, k + 1);
    }
    if k: nat :| StuckAt(actions, tail, k) {
      forall j | 0 < j <= k ensures actions[j] == rest[j - 1] && actions[j + 1..] == rest[j..] {}
      assert StuckAt(rest, tail, k - 1);
    }
  }

  // ---------------------------------------------------------------- the byte cursor

  /** Where the downloader stands: an offset from the script buffer and the bytes it believes remain. */
  datatype Cursor = Cursor(pos: int, len: int)

  function KindAt(m: Memory, p: int): u16 { Word16(m, p) }
  function SizeAt(m: Memory, p: int): u16 { Word16(m, p + 2) }
  function OpcodeAt(m: Memory, p: int): u16 { Word16(m, p + 5) }
  function ParamLenAt(m: Memory, p: int): byte { At(m, p + 7) }

  /** The opcode, the parameter length and the parameters of the command at p. */
  function PacketAt(m: Memory, p: int): seq<byte> {
    Read(m, p + 5, 3 + (ParamLenAt(m, p) as int))
  }

  predicate DroppedAt(m: Memory, p: int) {
    && KindAt(m, p) == SEND_COMMAND
    && (OpcodeAt(m, p) == HCI_VSC_UPDATE_BAUDRATE || OpcodeAt(m, p) == HCI_VS_SLP_CFG)
  }

  function Past(m: Memory, c: Cursor): (d: Cursor)
    ensures d.pos + d.len == c.pos + c.len
  {
    var step := ACTION_HEAD_SIZE + SizeAt(m, c.pos);
    Cursor(c.pos + step, c.len - step)
  }

  /** Passes over everything that is not a command. */
  function Seek(m: Memory, c: Cursor): (d: Cursor)
    ensures d.pos + d.len == c.pos + c.len && d.len <= c.len
    ensures d.len <= 0 || KindAt(m, d.pos) == SEND_COMMAND
    decreases if c.len > 0 then c.len else 0
  {
    if c.len > 0 && KindAt(m, c.pos) != SEND_COMMAND then Seek(m, Past(m, c)) else c
  }

  /** Passes over a dropped command, onto the wait event behind it; stays put when there is none. */
  function Skip(m: Memory, c: Cursor): Cursor {
    if KindAt(m, Past(m, c).pos) == WAIT_EVENT then Past(m, c) else c
  }

  datatype Probe = Probe(ok: bool, cursor: Cursor)

  function Helper(m: Memory, c: Cursor): (r: Probe)
    ensures r.cursor.pos + r.cursor.len == c.pos + c.len
  {
    var d := Seek(m, c);
    if DroppedAt(m, d.pos) then Probe(false, Skip(m, d)) else Probe(true, d)
  }

  /** The cursor after n calls of the helper. */
  function After(m: Memory, c: Cursor, n: nat): Cursor
    decreases n
  {
    if n == 0 then c else After(m, Helper(m, c).cursor, n - 1)
  }

  /** Calling the helper until it reports success comes to an end. */
  ghost predicate LoopEnds(m: Memory, c: Cursor) {
    exists n: nat :: Helper(m, After(m, c, n)).ok
  }

  /** The dropped command that the (n+1)-st call stops at, if it stops at one, is followed by a wait event. */
  predicate AwaitedAt(m: Memory, c: Cursor, n: nat) {
    var d := Seek(m, After(m, c, n));
    DroppedAt(m, d.pos) ==> KindAt(m, Past(m, d).pos) == WAIT_EVENT
  }

  /** What a failing call that moves on uses up. */
  function Fuel(m: Memory, c: Cursor): nat {
    (if c.len > 0 then 2 * c.len else 0) + (if KindAt(m, c.pos) == SEND_COMMAND then 1 else 0)
  }

  lemma MovingOnUsesFuel(m: Memory, c: Cursor)
    requires !Helper(m, c).ok && Helper(m, c).cursor != Seek(m, c)
    ensures Fuel(m, Helper(m, c).cursor) < Fuel(m, c)
  {
    var d := Seek(m, c);
    assert Helper(m, c).cursor == Past(m, d);
  }

  /** Where the loop around the helper ends, if it does. */
  function Scan(m: Memory, c: Cursor): Option<Cursor>
    decreases Fuel(m, c)
  {
    var r := Helper(m, c);
    if r.ok then Some(r.cursor)
    else if r.cursor == Seek(m, c) then None
    else
      MovingOnUsesFuel(m, c);
      Scan(m, r.cursor)
  }

  lemma ScanUnfolds(m: Memory, c: Cursor)
    ensures Helper(m, c).ok ==> Scan(m, c) == Some(Helper(m, c).cursor)
    ensures !Helper(m, c).ok && Helper(m, c).cursor == Seek(m, c) ==> Scan(m, c) == None
    ensures !Helper(m, c).ok && Helper(m, c).cursor != Seek(m, c) ==>
              Scan(m, c) == Scan(m, Helper(m, c).cursor) && Fuel(m, Helper(m, c).cursor) < Fuel(m, c)
  {
    if !Helper(m, c).ok && Helper(m, c).cursor != Seek(m, c) {
      MovingOnUsesFuel(m, c);
    }
  }

  lemma SeekAgain(m: Memory, c: Cursor)
    ensures Seek(m, Seek(m, c)) == Seek(m, c)
  {}

  lemma HelperAgain(m: Memory, c: Cursor)
    requires Helper(m, c).ok
    ensures Helper(m, Helper(m, c).cursor) == Helper(m, c)
    ensures Helper(m, c).cursor == Seek(m, c)
  {
    SeekAgain(m, c);
  }

  /** A failing call that does not move on will never do so. */
  lemma {:induction false} StuckForever(m: Memory, c: Cursor, n: nat)
    requires Helper(m, c) == Probe(false, c)
    ensures After(m, c, n) == c
  {
    if n == 0 {
    } else {
      StuckForever(m, c, n - 1);
    }
  }

  lemma StuckAgain(m: Memory, c: Cursor)
    requires Helper(m, c) == Probe(false, Seek(m, c))
    ensures Helper(m, Seek(m, c)) == Probe(false, Seek(m, c))
  {
    SeekAgain(m, c);
  }

  lemma {:induction false} OkStays(m: Memory, c: Cursor, n: nat)
    requires Helper(m, c).ok
    ensures Helper(m, After(m, c, n)) == Helper(m, c)
    decreases n
  {
    if n == 0 {
    } else {
      HelperAgain(m, c);
      OkStays(m, Helper(m, c).cursor, n - 1);
    }
  }

  lemma {:induction false} ScanNoneFails(m: Memory, c: Cursor, n: nat)
    requires Scan(m, c).None?
    ensures !Helper(m, After(m, c, n)).ok
    decreases n
  {
    ScanUnfolds(m, c);
    if n == 0 {
    } else {
      var d := Helper(m, c).cursor;
      if d == Seek(m, c) {
        StuckAgain(m, c);
        StuckForever(m, d, n - 1);
      } else {
        ScanNoneFails(m, d, n - 1);
      }
    }
  }

  lemma {:induction false} ScanNoneStuck(m: Memory, c: Cursor) returns (k: nat)
    requires Scan(m, c).None?
    ensures !AwaitedAt(m, c, k)
    ensures Helper(m, After(m, c, k + 1)) == Probe(false, After(m, c, k + 1))
    decreases Fuel(m, c)
  {
    ScanUnfolds(m, c);
    var d := Helper(m, c).cursor;
    if d == Seek(m, c) {
      k := 0;
      StuckAgain(m, c);
    } else {
      var j := ScanNoneStuck(m, d);
      k := j + 1;
    }
  }

  lemma {:induction false} ScanSomeAwaited(m: Memory, c: Cursor, n: nat)
    requires Scan(m, c).Some?
    ensures AwaitedAt(m, c, n)
    decreases n
  {
    ScanUnfolds(m, c);
    if Helper(m, c).ok {
      OkStays(m, c, n);
    } else if n > 0 {
      ScanSomeAwaited(m, Helper(m, c).cursor, n - 1);
    }
  }

  lemma {:induction false} ScanSomeEnds(m: Memory, c: Cursor) returns (k: nat)
    requires Scan(m, c).Some?
    ensures Helper(m, After(m, c, k)) == Probe(true, Scan(m, c).value)
    decreases Fuel(m, c)
  {
    ScanUnfolds(m, c);
    if Helper(m, c).ok {
      k := 0;
    } else {
      var j := ScanSomeEnds(m, Helper(m, c).cursor);
      k := j + 1;
    }
  }

  /** The loop ends if and only if every dropped command it reaches is followed by a wait event;
      otherwise it reaches a state that the helper reports as failed and leaves unchanged. */
  lemma LoopEndsIffDropsAwaited(m: Memory, c: Cursor)
    ensures LoopEnds(m, c) <==> (forall n: nat :: AwaitedAt(m, c, n))
    ensures LoopEnds(m, c) <==> Scan(m, c).Some?
    ensures !LoopEnds(m, c) ==> exists k: nat :: Helper(m, After(m, c, k)) == Probe(false, After(m, c, k))
  {
    if Scan(m, c).Some? {
      var k := ScanSomeEnds(m, c);
      forall n: nat ensures AwaitedAt(m, c, n) {
        ScanSomeAwaited(m, c, n);
      }
    } else {
      var k := ScanNoneStuck(m, c);
      forall n: nat ensures !Helper(m, After(m, c, n)).ok {
        ScanNoneFails(m, c, n);
      }
    }
  }

  /** A script that hangs the loop: a command that changes the baud rate, and nothing behind it. */
  lemma LoopCanHang()
    ensures !LoopEnds([1, 0, 4, 0, 1, 0x36, 0xFF, 0], Cursor(0, 8))
  {
    var m: Memory, c := [1, 0, 4, 0, 1, 0x36, 0xFF, 0], Cursor(0, 8);
    assert KindAt(m, 0) == SEND_COMMAND && SizeAt(m, 0) == 4 && OpcodeAt(m, 0) == HCI_VSC_UPDATE_BAUDRATE;
    assert Seek(m, c) == c && Past(m, c) == Cursor(8, 0) && KindAt(m, 8) == 0;
    assert !AwaitedAt(m, c, 0);
    LoopEndsIffDropsAwaited(m, c);
  }

  // ---------------------------------------------------------------- how much there is to send

  lemma MovesForward(m: Memory, c: Cursor)
    ensures Helper(m, c).cursor.len <= c.len
  {}

  /** Scanning moves forward and keeps the end. */
  lemma {:induction false} ScanKeepsEnd(m: Memory, c: Cursor)
    requires Scan(m, c).Some?
    ensures Scan(m, c).value.pos + Scan(m, c).value.len == c.pos + c.len
    ensures Scan(m, c).value.len <= c.len
    decreases Fuel(m, c)
  {
    ScanUnfolds(m, c);
    MovesForward(m, c);
    if Helper(m, c).ok {
    } else {
      ScanKeepsEnd(m, Helper(m, c).cursor);
    }
  }

  /** A command lies within the memory that is there. */
  lemma CommandIsThere(m: Memory, p: int)
    requires KindAt(m, p) == SEND_COMMAND
    ensures 0 <= p < |m|
  {}

  /** How many commands the downloader sends from here on, whatever the bytes are, when each is accepted. */
  function Sends(m: Memory, c: Cursor): nat
    decreases if c.pos < |m| then |m| - c.pos else 0
  {
    match Scan(m, c)
    case None => 0
    case Some(d) =>
      if KindAt(m, d.pos) != SEND_COMMAND then 0
      else
        ScanKeepsEnd(m, c);
        CommandIsThere(m, d.pos);
        1 + Sends(m, Past(m, d))
  }

  /** The loop ends here and wherever the cursor stands after a command has been sent. */
  predicate NeverStuck(m: Memory, c: Cursor)
    decreases if c.pos < |m| then |m| - c.pos else 0
  {
    match Scan(m, c)
    case None => false
    case Some(d) =>
      if KindAt(m, d.pos) != SEND_COMMAND then true
      else
        ScanKeepsEnd(m, c);
        CommandIsThere(m, d.pos);
        NeverStuck(m, Past(m, d))
  }

  // ---------------------------------------------------------------- the cursor refines the list

  /** The cursor stands on an action boundary, with exactly these actions ahead of it. */
  predicate Ahead(m: Memory, c: Cursor, actions: seq<GoodAction>) {
    c.len == |Encode(actions)| && Holds(m, c.pos, Encode(actions))
  }

  /** The word after the last action. */
  function Tail(m: Memory, c: Cursor): u16 { KindAt(m, c.pos + c.len) }

  lemma ActionAhead(m: Memory, c: Cursor, actions: seq<GoodAction>)
    requires Ahead(m, c, actions) && actions != []
    ensures KindAt(m, c.pos) == actions[0].kind
    ensures SizeAt(m, c.pos) == |actions[0].data|
    ensures Holds(m, c.pos + 4, actions[0].data)
    ensures Ahead(m, Past(m, c), actions[1..]) && c.len > 0
  {
    var a := actions[0];
    var head := U16(a.kind) + U16(|a.data|);
    assert a.Encode() == head + a.data;
    HoldsSplit(m, c.pos, a.Encode(), Encode(actions[1..]));
    HoldsSplit(m, c.pos, head, a.data);
    HoldsSplit(m, c.pos, U16(a.kind), U16(|a.data|));
    HoldsWord16(m, c.pos, a.kind);
    HoldsWord16(m, c.pos + 2, |a.data|);
  }

  lemma CommandAhead(m: Memory, c: Cursor, actions: seq<GoodAction>)
    requires Ahead(m, c, actions) && actions != [] && actions[0].kind == SEND_COMMAND
    ensures DroppedAt(m, c.pos) <==> actions[0].Dropped()
    ensures PacketAt(m, c.pos) == actions[0].Packet()
    ensures OpcodeAt(m, c.pos) == actions[0].Opcode()
  {
    ActionAhead(m, c, actions);
    var data := actions[0].data;
    var p := c.pos + 4;
    assert At(m, p + 1) == data[1] && At(m, p + 2) == data[2] && At(m, p + 3) == data[3];
    HoldsRead(m, p, data, 1, 3 + (data[3] as int));
  }

  lemma {:induction false} KindAhead(m: Memory, c: Cursor, actions: seq<GoodAction>)
    requires Ahead(m, c, actions)
    ensures KindAt(m, c.pos) == FirstKind(actions, Tail(m, c))
  {
    if actions == [] {
    } else {
      ActionAhead(m, c, actions);
    }
  }

  /** What the loop does at an action: passes it, sends it, or drops it with its wait event or gets stuck. */
  lemma ScanPasses(m: Memory, c: Cursor)
    requires c.len > 0 && KindAt(m, c.pos) != SEND_COMMAND
    ensures Scan(m, c) == Scan(m, Past(m, c))
  {
    assert Seek(m, c) == Seek(m, Past(m, c));
  }

  lemma ScanSends(m: Memory, c: Cursor)
    requires KindAt(m, c.pos) == SEND_COMMAND && !DroppedAt(m, c.pos)
    ensures Scan(m, c) == Some(c)
  {
    assert Seek(m, c) == c;
  }

  lemma ScanDrops(m: Memory, c: Cursor)
    requires DroppedAt(m, c.pos)
    ensures Scan(m, c) == if KindAt(m, Past(m, c).pos) == WAIT_EVENT then Scan(m, Past(m, c)) else None
  {
    assert Seek(m, c) == c;
  }

  /** On a well-formed script the loop around the helper finds what NextCommand finds in the list. */
  lemma {:induction false} ScanRefinesNextCommand(m: Memory, c: Cursor, actions: seq<GoodAction>)
    requires Ahead(m, c, actions) && Tail(m, c) != SEND_COMMAND
    ensures match NextCommand(actions, Tail(m, c))
            case Stuck => Scan(m, c).None?
            case Done => Scan(m, c).Some? && Ahead(m, Scan(m, c).value, [])
            case Found(command, rest) => Scan(m, c).Some? && Ahead(m, Scan(m, c).value, [command] + rest)
    decreases |actions|
  {
    if actions == [] {
      assert Seek(m, c) == c;
    } else {
      ActionAhead(m, c, actions);
      var d := Past(m, c);
      KindAhead(m, d, actions[1..]);
      if actions[0].kind != SEND_COMMAND {
        ScanPasses(m, c);
        ScanRefinesNextCommand(m, d, actions[1..]);
      } else {
        CommandAhead(m, c, actions);
        if actions[0].Dropped() {
          ScanDrops(m, c);
          if FirstKind(actions[1..], Tail(m, c)) == WAIT_EVENT {
            ScanRefinesNextCommand(m, d, actions[1..]);
          }
        } else {
          ScanSends(m, c);
          assert actions == [actions[0]] + actions[1..];
        }
      }
    }
  }

  /** The cursor stands before these actions, and the word behind the last one does not read as a command. */
  predicate Placed(m: Memory, c: Cursor, actions: seq<GoodAction>) {
    Ahead(m, c, actions) && Tail(m, c) != SEND_COMMAND
  }

  /** A well-formed script hangs the loop exactly when a dropped command without its wait event comes first. */
  lemma LoopEndsInScript(m: Memory, c: Cursor, actions: seq<GoodAction>)
    requires Placed(m, c, actions)
    ensures LoopEnds(m, c) <==> !exists k: nat :: StuckAt(actions, Tail(m, c), k)
  {
    LoopEndsIffDropsAwaited(m, c);
    ScanRefinesNextCommand(m, c, actions);
    StuckIffUnawaitedFirst(actions, Tail(m, c));
  }

  lemma AheadOfRest(m: Memory, d: Cursor, command: GoodAction, rest: seq<GoodAction>, c: Cursor)
    requires Ahead(m, d, [command] + rest) && d.pos + d.len == c.pos + c.len && command.Kept()
    requires Tail(m, c) != SEND_COMMAND
    ensures KindAt(m, d.pos) == SEND_COMMAND && Placed(m, Past(m, d), rest) && Tail(m, Past(m, d)) == Tail(m, c)
  {
    assert ([command] + rest)[1..] == rest;
    ActionAhead(m, d, [command] + rest);
  }

  /** From a well-formed script no more is sent than its kept commands, and all of them if the drops are awaited. */
  lemma {:induction false} SendsOfScript(m: Memory, c: Cursor, actions: seq<GoodAction>)
    requires Placed(m, c, actions)
    ensures Sends(m, c) <= |Commands(actions)|
    ensures DropsAwaited(actions, Tail(m, c)) ==> Sends(m, c) == |Commands(actions)|
    decreases |Commands(actions)|
  {
    var tail := Tail(m, c);
    NextCommandIsFirstOfCommands(actions, tail);
    ScanRefinesNextCommand(m, c, actions);
    match NextCommand(actions, tail)
    case Stuck =>
    case Done =>
      ScanKeepsEnd(m, c);
      KindAhead(m, Scan(m, c).value, []);
    case Found(command, rest) =>
      ScanKeepsEnd(m, c);
      AheadOfRest(m, Scan(m, c).value, command, rest, c);
      SendsOfScript(m, Past(m, Scan(m, c).value), rest);
  }

  /** In a well-formed script it always ends exactly when every dropped command has its wait event. */
  lemma {:induction false} NeverStuckInScript(m: Memory, c: Cursor, actions: seq<GoodAction>)
    requires Placed(m, c, actions)
    ensures NeverStuck(m, c) <==> DropsAwaited(actions, Tail(m, c))
    decreases |Commands(actions)|
  {
    var tail := Tail(m, c);
    NextCommandIsFirstOfCommands(actions, tail);
    ScanRefinesNextCommand(m, c, actions);
    match NextCommand(actions, tail)
    case Stuck =>
    case Done =>
      ScanKeepsEnd(m, c);
      KindAhead(m, Scan(m, c).value, []);
    case Found(command, rest) =>
      ScanKeepsEnd(m, c);
      AheadOfRest(m, Scan(m, c).value, command, rest, c);
      NeverStuckInScript(m, Past(m, Scan(m, c).value), rest);
  }
}
