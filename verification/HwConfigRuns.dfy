/** What holds of one callback and of a whole firmware-configuration run. */
module HwConfigRuns {
  import opened Bytes
  import opened BtsScript
  import opened HwConfig

  // ---------------------------------------------------------------- parts of a trace

  /** A part of a trace: the results reported, the script buffers freed, or allocated, or both, the commands
      transmitted, or when one buffer was handed out and what became of it. */
  datatype Part =
    Reports | Frees | Mallocs | Heap | Transmissions | Fates(buffer: Buffer) | Grants(buffer: Buffer)

  predicate In(e: Effect, part: Part) {
    match part
    case Reports => e.FwCfg?
    case Frees => e.FreeFw?
    case Mallocs => e.MallocFw?
    case Heap => e.FreeFw? || e.MallocFw?
    case Transmissions => e.Xmit?
    case Fates(b) => e == Dealloc(b) || (e.Xmit? && e.owner == b && e.accepted)
    case Grants(b) => e == Alloc(b, true)
  }

  function Only(es: seq<Effect>, part: Part): seq<Effect> {
    if es == [] then []
    else if In(es[0], part) then [es[0]] + Only(es[1..], part)
    else Only(es[1..], part)
  }

  lemma {:induction false} OnlyAppend(a: seq<Effect>, b: seq<Effect>, part: Part)
    ensures Only(a + b, part) == Only(a, part) + Only(b, part)
  {
    if a == [] {
      assert a + b == b;
    } else {
      assert (a + b)[1..] == a[1..] + b;
      OnlyAppend(a[1..], b, part);
    }
  }

  lemma OnlyCons(e: Effect, rest: seq<Effect>, part: Part)
    ensures Only([e] + rest, part) == (if In(e, part) then [e] else []) + Only(rest, part)
    ensures Only([e], part) == if In(e, part) then [e] else []
  {
    assert ([e] + rest)[1..] == rest;
    assert [e][1..] == [];
  }

  // ---------------------------------------------------------------- the cases of the switch

  /** The part of a codec command's trace. */
  function CodecPart(b: Buffer, opcode: u16, packet: seq<byte>, s: Send, part: Part): seq<Effect> {
    if s.NoBuffer? then []
    else if part == Transmissions || (part == Fates(b) && s.accepted) then [Xmit(opcode, packet, b, s.accepted)]
    else if part == Grants(b) then [Alloc(b, true)]
    else []
  }

  lemma WriteCodecParts(b: Buffer, opcode: u16, packet: seq<byte>, s: Send, part: Part)
    ensures Only(WriteCodec(b, opcode, packet, s), part) == CodecPart(b, opcode, packet, s, part)
  {
    match s
    case NoBuffer =>
      OnlyCons(Alloc(b, false), [ScoCfg(false)], part);
      OnlyCons(ScoCfg(false), [], part);
    case Sent(accepted) =>
      var x := Xmit(opcode, packet, b, accepted);
      OnlyCons(Alloc(b, true), [x], part);
      OnlyCons(x, [], part);
  }

  function CodecParts(a: Answers, part: Part): seq<Effect> {
    CodecPart(Codec, HCI_VS_WRITE_CODEC_CONFIG, CODEC_PACKET, a.codec, part)
    + CodecPart(Enhanced, HCI_VS_WRITE_CODEC_CONFIG_ENHANCED, ENHANCED_PACKET, a.enhanced, part)
  }

  /** What the end of a run adds: the command buffer and the script buffer are given back, both codec commands go
      out, and success is reported. */
  function EndParts(c: Cfg, a: Answers, part: Part): seq<Effect> {
    match part
    case Reports => [FwCfg(true)]
    case Frees => [FreeFw(c.fwData)]
    case Mallocs => []
    case Heap => [FreeFw(c.fwData)]
    case Transmissions => CodecParts(a, part)
    case Fates(b) => if b == Command then [Dealloc(Command)] else CodecParts(a, part)
    case Grants(b) => CodecParts(a, part)
  }

  lemma EndReportParts(a: Answers, part: Part)
    ensures Only(WriteCodec(Codec, HCI_VS_WRITE_CODEC_CONFIG, CODEC_PACKET, a.codec)
                 + (WriteCodec(Enhanced, HCI_VS_WRITE_CODEC_CONFIG_ENHANCED, ENHANCED_PACKET, a.enhanced)
                 + [FwCfg(true)]), part)
         == CodecParts(a, part) + (if part == Reports then [FwCfg(true)] else [])
  {
    var codec := WriteCodec(Codec, HCI_VS_WRITE_CODEC_CONFIG, CODEC_PACKET, a.codec);
    var enhanced := WriteCodec(Enhanced, HCI_VS_WRITE_CODEC_CONFIG_ENHANCED, ENHANCED_PACKET, a.enhanced);
    OnlyCons(FwCfg(true), [], part);
    OnlyAppend(enhanced, [FwCfg(true)], part);
    OnlyAppend(codec, enhanced + [FwCfg(true)], part);
    WriteCodecParts(Codec, HCI_VS_WRITE_CODEC_CONFIG, CODEC_PACKET, a.codec, part);
    WriteCodecParts(Enhanced, HCI_VS_WRITE_CODEC_CONFIG_ENHANCED, ENHANCED_PACKET, a.enhanced, part);
  }

  lemma DownloadEndParts(c: Cfg, a: Answers, part: Part)
    ensures Only(DownloadEndCase(c, a).effects, part) == EndParts(c, a, part)
  {
    var last := WriteCodec(Codec, HCI_VS_WRITE_CODEC_CONFIG, CODEC_PACKET, a.codec)
                + (WriteCodec(Enhanced, HCI_VS_WRITE_CODEC_CONFIG_ENHANCED, ENHANCED_PACKET, a.enhanced)
                + [FwCfg(true)]);
    EndReportParts(a, part);
    OnlyCons(FreeFw(c.fwData), last, part);
    OnlyCons(Dealloc(Command), [FreeFw(c.fwData)] + last, part);
  }

  lemma NeutralFirst(e: Effect, k: Case, part: Part)
    requires k.Ran?
    ensures Only(Then([e], k).effects, part) == (if In(e, part) then [e] else []) + Only(k.effects, part)
  {
    OnlyCons(e, k.effects, part);
  }

  /** The command buffer leaves the host exactly when the run goes on or has ended well; the event buffer is not
      touched; the script buffer is freed, and success reported, exactly at a good end. */
  ghost predicate Settled(k: Case) {
    && k.Ran?
    && |Only(k.effects, Fates(Command))| == (if k.proceeding then 1 else 0)
    && Only(k.effects, Fates(Event)) == []
    && Only(k.effects, Reports) == (if k.proceeding && k.cfg.state == Idle then [FwCfg(true)] else [])
    && Only(k.effects, Frees) == (if k.proceeding && k.cfg.state == Idle then [FreeFw(k.cfg.fwData)] else [])
  }

  /** The states from which no script is loaded any more. */
  predicate Late(s: State) { s == Download || s == DownloadEnd || s == Idle }

  /** At most one script buffer is allocated, and before any is freed; fw_data points to the last one, and the run is
      late from then on. */
  ghost predicate Tracked(c: Cfg, k: Case) {
    && k.Ran?
    && Only(k.effects, Heap) == Only(k.effects, Mallocs) + Only(k.effects, Frees)
    && k.cfg.cbacks == c.cbacks
    && (Only(k.effects, Mallocs) == [] ==> k.cfg.fwData == c.fwData)
    && (Only(k.effects, Mallocs) != [] ==> Only(k.effects, Mallocs) == [MallocFw(k.cfg.fwData)])
    && (Only(k.effects, Mallocs) != [] && k.proceeding ==> Late(k.cfg.state))
  }

  predicate Inert(e: Effect) {
    e.HostBaud? || e.OpenScript? || (e.Alloc? && e.buffer == Command) || (e.Xmit? && e.owner == Command && !e.accepted)
  }

  lemma SettledAfter(e: Effect, c: Cfg, k: Case)
    requires Inert(e) && Settled(k) && Tracked(c, k)
    ensures Settled(Then([e], k)) && Tracked(c, Then([e], k))
  {
    NeutralFirst(e, k, Fates(Command));
    NeutralFirst(e, k, Fates(Event));
    NeutralFirst(e, k, Reports);
    NeutralFirst(e, k, Frees);
    NeutralFirst(e, k, Mallocs);
    NeutralFirst(e, k, Heap);
  }

  lemma SettledSend(e: Effect, c: Cfg, c': Cfg)
    requires e.Xmit? && e.owner == Command && c'.state != Idle
    requires c'.cbacks == c.cbacks && c'.fwData == c.fwData
    ensures Settled(Ran(c', [e], e.accepted)) && Tracked(c, Ran(c', [e], e.accepted))
  {
    OnlyCons(e, [], Fates(Command));
    OnlyCons(e, [], Fates(Event));
    OnlyCons(e, [], Reports);
    OnlyCons(e, [], Frees);
    OnlyCons(e, [], Mallocs);
    OnlyCons(e, [], Heap);
  }

  lemma DownloadEndSettled(c: Cfg, a: Answers)
    ensures Settled(DownloadEndCase(c, a)) && Tracked(c, DownloadEndCase(c, a))
  {
    DownloadEndParts(c, a, Fates(Command));
    DownloadEndParts(c, a, Fates(Event));
    DownloadEndParts(c, a, Reports);
    DownloadEndParts(c, a, Frees);
    DownloadEndParts(c, a, Mallocs);
    DownloadEndParts(c, a, Heap);
  }

  lemma DownloadSettled(c: Cfg, a: Answers)
    requires Scan(c.fw, c.cur).Some? && c.state != Idle
    ensures Settled(DownloadCase(c, a)) && Tracked(c, DownloadCase(c, a))
    ensures Only(DownloadCase(c, a).effects, Mallocs) == []
    ensures Late(c.state) ==> Late(DownloadCase(c, a).cfg.state)
  {
    var d := Scan(c.fw, c.cur).value;
    if KindAt(c.fw, d.pos) != SEND_COMMAND {
      DownloadEndSettled(c.(cur := d), a);
      DownloadEndParts(c.(cur := d), a, Mallocs);
    } else {
      var x := Xmit(OpcodeAt(c.fw, d.pos), PacketAt(c.fw, d.pos), Command, a.command);
      var c' := c.(cur := Past(c.fw, d));
      if a.command {
        SettledSend(x, c, c');
        OnlyCons(x, [], Mallocs);
      } else {
        DownloadEndSettled(c', a);
        DownloadEndParts(c', a, Mallocs);
        SettledAfter(x, c, DownloadEndCase(c', a));
        NeutralFirst(x, DownloadEndCase(c', a), Mallocs);
      }
    }
  }

  lemma FailedLoadSettled(c: Cfg, file: Effect, c': Cfg)
    requires file.OpenScript? && c'.cbacks == c.cbacks
    ensures c'.fwData == c.fwData ==> Settled(Ran(c', [file], false)) && Tracked(c, Ran(c', [file], false))
    ensures var k := Ran(c', [file] + [MallocFw(c'.fwData)], false); Settled(k) && Tracked(c, k)
  {
    forall part: Part
      ensures Only([file], part) == []
      ensures Only([file] + [MallocFw(c'.fwData)], part)
           == if part == Mallocs || part == Heap then [MallocFw(c'.fwData)] else []
    {
      OnlyCons(file, [MallocFw(c'.fwData)], part);
      OnlyCons(MallocFw(c'.fwData), [], part);
    }
  }

  lemma LoadedSettled(file: Effect, p: nat, c: Cfg, k: Case)
    requires file.OpenScript? && Settled(k) && Only(k.effects, Mallocs) == [] && k.cfg.fwData == p
    requires Only(k.effects, Heap) == Only(k.effects, Mallocs) + Only(k.effects, Frees)
    requires k.cfg.cbacks == c.cbacks && Late(k.cfg.state)
    ensures Settled(Then([file] + [MallocFw(p)], k)) && Tracked(c, Then([file] + [MallocFw(p)], k))
  {
    forall part: Part
      ensures Only([file] + [MallocFw(p)] + k.effects, part)
           == (if part == Mallocs || part == Heap then [MallocFw(p)] else []) + Only(k.effects, part)
    {
      OnlyAppend([file] + [MallocFw(p)], k.effects, part);
      OnlyCons(file, [MallocFw(p)], part);
      OnlyCons(MallocFw(p), [], part);
    }
    assert [] + Only(k.effects, Frees) == Only(k.effects, Frees);
  }

  lemma ReadLocalVerSettled(c: Cfg, ev: Memory, a: Answers)
    requires ReadLocalVerCase(c, ev, a).Ran? && c.state != Idle
    ensures Settled(ReadLocalVerCase(c, ev, a)) && Tracked(c, ReadLocalVerCase(c, ev, a))
  {
    var file := OpenScript(VersionAt(ev));
    match a.load
    case NoFile => FailedLoadSettled(c, file, c);
    case NoMemory(size) => FailedLoadSettled(c, file, c.(cur := c.cur.(len := size), fwData := 0));
    case ShortRead(p, size) => FailedLoadSettled(c, file, c.(cur := c.cur.(len := size), fwData := p));
    case Loaded(p, m, size) =>
      DownloadSettled(Installed(c, p, m, size), a);
      LoadedSettled(file, p, c, DownloadCase(Installed(c, p, m, size), a));
  }

  lemma SetBdAddrSettled(c: Cfg, a: Answers)
    ensures Settled(SetBdAddrCase(c, a)) && Tracked(c, SetBdAddrCase(c, a))
  {
    SettledSend(Xmit(HCI_READ_LOCAL_VERSION, Parameterless(HCI_READ_LOCAL_VERSION), Command, a.readVersion),
                c, c.(state := ReadLocalVer));
  }

  lemma ReadBdAddrSettled(c: Cfg, ev: Memory, a: Answers)
    ensures Settled(ReadBdAddrCase(c, ev, a)) && Tracked(c, ReadBdAddrCase(c, ev, a))
  {
    SetBdAddrSettled(c, a);
    var x := Xmit(HCI_VSC_WRITE_BD_ADDR, WriteAddrPacket(c.addr), Command, a.writeAddr);
    var c' := c.(state := SetBdAddr);
    if a.writeAddr {
      SettledSend(x, c, c');
    } else {
      SetBdAddrSettled(c', a);
      SettledAfter(x, c, SetBdAddrCase(c', a));
    }
  }

  lemma ReadAddrRefusedSettled(x: Effect, c: Cfg, k: Case)
    requires Inert(x) && x.Xmit? && Settled(k) && Tracked(c, k)
    ensures var baud := HostBaud(UART_TARGET_BAUD_RATE);
            Settled(Then([baud] + [x], k)) && Tracked(c, Then([baud] + [x], k))
  {
    var baud := HostBaud(UART_TARGET_BAUD_RATE);
    SettledAfter(x, c, k);
    SettledAfter(baud, c, Then([x], k));
    assert [baud] + ([x] + k.effects) == [baud] + [x] + k.effects;
  }

  lemma SetUartBaudSettled(c: Cfg, ev: Memory, a: Answers)
    ensures Settled(SetUartBaudCase(c, ev, a)) && Tracked(c, SetUartBaudCase(c, ev, a))
  {
    var baud := HostBaud(UART_TARGET_BAUD_RATE);
    var x := Xmit(HCI_READ_LOCAL_BDADDR, Parameterless(HCI_READ_LOCAL_BDADDR), Command, a.readAddr);
    var c' := c.(state := ReadBdAddr);
    if a.readAddr {
      SettledSend(x, c, c');
      SettledAfter(baud, c, Ran(c', [x], true));
    } else {
      ReadBdAddrSettled(c', ev, a);
      ReadAddrRefusedSettled(x, c, ReadBdAddrCase(c', ev, a));
    }
  }

  lemma SwitchSettled(c: Cfg, ev: Memory, held: seq<byte>, a: Answers)
    requires Switch(c, ev, held, a).Ran?
    ensures var k := Switch(c, ev, held, a);
            && Settled(k)
            && Tracked(c, k)
            && (Late(c.state) ==> Only(k.effects, Mallocs) == [] && Late(k.cfg.state))
  {
    match c.state
    case Idle =>
    case Start => SettledSend(Xmit(HCI_VSC_UPDATE_BAUDRATE, BaudPacket(held), Command, a.baud),
                              c, c.(state := SetUartBaud));
    case SetUartBaud => SetUartBaudSettled(c, ev, a);
    case ReadBdAddr => ReadBdAddrSettled(c, ev, a);
    case SetBdAddr => SetBdAddrSettled(c, a);
    case ReadLocalVer => ReadLocalVerSettled(c, ev, a);
    case Download => DownloadSettled(c, a);
    case DownloadEnd =>
      DownloadEndSettled(c, a);
      DownloadEndParts(c, a, Mallocs);
  }

  lemma AllocSettled(c: Cfg, ev: Memory, a: Answers)
    requires AllocCase(c, ev, a).Ran?
    ensures Settled(AllocCase(c, ev, a)) && Tracked(c, AllocCase(c, ev, a))
    ensures !Granted(c, ev, a) ==> !AllocCase(c, ev, a).proceeding
    ensures Late(c.state) ==> Only(AllocCase(c, ev, a).effects, Mallocs) == [] && Late(AllocCase(c, ev, a).cfg.state)
  {
    if Granted(c, ev, a) {
      var k := Switch(c, ev, a.buffer.value, a);
      SwitchSettled(c, ev, a.buffer.value, a);
      SettledAfter(Alloc(Command, true), c, k);
      NeutralFirst(Alloc(Command, true), k, Mallocs);
    } else {
      forall part: Part ensures Only([Alloc(Command, false)], part) == [] {
        OnlyCons(Alloc(Command, false), [], part);
      }
    }
  }

  function ClosingPart(c: Cfg, granted: bool, proceeding: bool, part: Part): seq<Effect> {
    match part
    case Fates(b) =>
      if b == Event then [Dealloc(Event)]
      else if b == Command && granted && !proceeding then [Dealloc(Command)]
      else []
    case Reports => if proceeding then [] else [FwCfg(false)]
    case Frees => if proceeding then [] else [FreeFw(c.fwData)]
    case Heap => if proceeding then [] else [FreeFw(c.fwData)]
    case _ => []
  }

  lemma ClosingPartHolds(c: Cfg, granted: bool, proceeding: bool, part: Part)
    requires c.cbacks
    ensures Only(Closing(c, granted, proceeding), part) == ClosingPart(c, granted, proceeding, part)
  {
    var command := if granted then [Dealloc(Command)] else [];
    var abort := [FreeFw(c.fwData)] + [FwCfg(false)];
    if proceeding {
      OnlyCons(Dealloc(Event), [], part);
    } else {
      OnlyCons(Dealloc(Event), command + abort, part);
      OnlyAppend(command, abort, part);
      OnlyCons(Dealloc(Command), [], part);
      OnlyCons(FreeFw(c.fwData), [FwCfg(false)], part);
      OnlyCons(FwCfg(false), [], part);
    }
  }

  /** The end of the callback. */
  lemma ClosingParts(c: Cfg, granted: bool, proceeding: bool)
    requires c.cbacks
    ensures var es := Closing(c, granted, proceeding);
            && |Only(es, Fates(Command))| == (if granted && !proceeding then 1 else 0)
            && |Only(es, Fates(Event))| == 1
            && Only(es, Reports) == (if proceeding then [] else [FwCfg(false)])
            && Only(es, Frees) == (if proceeding then [] else [FreeFw(c.fwData)])
            && Only(es, Mallocs) == []
            && Only(es, Heap) == Only(es, Frees)
            && Only(es, Transmissions) == []
  {
    forall part: Part
      ensures Only(Closing(c, granted, proceeding), part) == ClosingPart(c, granted, proceeding, part)
    {
      ClosingPartHolds(c, granted, proceeding, part);
    }
  }

  // ---------------------------------------------------------------- one callback

  /** In every callback that returns, a buffer that was handed out for a command is either sent or given back, and
      only once; the event buffer is given back once; a run reports once, when it ends, and then frees the one
      pointer fw_data holds; fw_data is the last script buffer allocated, if one was. */
  lemma EveryBufferHasOneFate(c: Cfg, ev: Memory, a: Answers)
    requires c.cbacks && Step(c, ev, a).Returns?
    ensures var o := Step(c, ev, a);
            && |Only(o.effects, Fates(Command))| == (if Granted(c, ev, a) then 1 else 0)
            && |Only(o.effects, Fates(Event))| == 1
            && (o.cfg.state != Idle ==> Only(o.effects, Reports) == [] && Only(o.effects, Frees) == [])
            && (o.cfg.state == Idle ==>
                  |Only(o.effects, Reports)| == 1 && Only(o.effects, Frees) == [FreeFw(o.cfg.fwData)])
            && (Only(o.effects, Mallocs) == [] ==> o.cfg.fwData == c.fwData)
            && (Only(o.effects, Mallocs) != [] ==> Only(o.effects, Mallocs) == [MallocFw(o.cfg.fwData)])
            && (Only(o.effects, Mallocs) != [] ==> Late(o.cfg.state))
            && (Late(c.state) ==> Only(o.effects, Mallocs) == [] && Late(o.cfg.state))
            && Only(o.effects, Heap) == Only(o.effects, Mallocs) + Only(o.effects, Frees)
            && o.cfg.cbacks
  {
    var k := AllocCase(c, ev, a);
    var granted := Granted(c, ev, a);
    AllocSettled(c, ev, a);
    var closing := Closing(k.cfg, granted, k.proceeding);
    ClosingParts(k.cfg, granted, k.proceeding);
    OnlyAppend(k.effects, closing, Fates(Command));
    OnlyAppend(k.effects, closing, Fates(Event));
    OnlyAppend(k.effects, closing, Reports);
    OnlyAppend(k.effects, closing, Frees);
    OnlyAppend(k.effects, closing, Mallocs);
    OnlyAppend(k.effects, closing, Heap);
  }

  /** A codec command's buffer is got and not handed on exactly when the transmission is refused. */
  lemma CodecBufferKeptIffRefused(c: Cfg, a: Answers, b: Buffer)
    requires b == Codec || b == Enhanced
    ensures var es := DownloadEndCase(c, a).effects;
            var answer := if b == Codec then a.codec else a.enhanced;
            && |Only(es, Grants(b))| == (if answer.Sent? then 1 else 0)
            && |Only(es, Fates(b))| == (if answer == Sent(true) then 1 else 0)
            && (|Only(es, Fates(b))| < |Only(es, Grants(b))| <==> answer == Sent(false))
  {
    DownloadEndParts(c, a, Grants(b));
    DownloadEndParts(c, a, Fates(b));
  }

  // ---------------------------------------------------------------- progress

  lemma PastFound(m: Memory, d: Cursor, command: GoodAction, rest: seq<GoodAction>, c: Cursor)
    requires Ahead(m, d, [command] + rest) && d.pos + d.len == c.pos + c.len && command.Kept()
    requires Tail(m, c) != SEND_COMMAND
    ensures KindAt(m, d.pos) == SEND_COMMAND
    ensures OpcodeAt(m, d.pos) == command.Opcode() && PacketAt(m, d.pos) == command.Packet()
    ensures Placed(m, Past(m, d), rest)
    ensures Past(m, d).pos + Past(m, d).len == c.pos + c.len
    ensures Past(m, d).len < d.len && 0 <= Past(m, d).len
  {
    var actions := [command] + rest;
    assert actions[1..] == rest;
    ActionAhead(m, d, actions);
    CommandAhead(m, d, actions);
  }

  /** The download sends the first command that is left, or ends the run when none is; it does not come back when a
      dropped command without its wait event comes first. */
  lemma DownloadRefinesList(c: Cfg, a: Answers, actions: seq<GoodAction>)
    requires Placed(c.fw, c.cur, actions)
    ensures var k := DownloadCase(c, a);
            match NextCommand(actions, Tail(c.fw, c.cur))
            case Stuck => k == Hang
            case Done => exists cur :: k == DownloadEndCase(c.(cur := cur), a)
            case Found(command, rest) =>
              && command.Kept()
              && exists cur :: k == SendCommand(c.(cur := cur), a, command) && StandsBefore(c, cur, rest)
  {
    var tail := Tail(c.fw, c.cur);
    NextCommandIsFirstOfCommands(actions, tail);
    ScanRefinesNextCommand(c.fw, c.cur, actions);
    if NextCommand(actions, tail) != Stuck {
      ScanKeepsEnd(c.fw, c.cur);
      var d := Scan(c.fw, c.cur).value;
      match NextCommand(actions, tail)
      case Done => KindAhead(c.fw, d, []);
      case Found(command, rest) =>
        PastFound(c.fw, d, command, rest, c.cur);
        assert DownloadCase(c, a) == SendCommand(c.(cur := Past(c.fw, d)), a, command);
    }
  }

  function SendCommand(c: Cfg, a: Answers, command: GoodAction): Case
    requires command.kind == SEND_COMMAND
  {
    var sent := [CommandXmit(command, a.command)];
    if a.command then Ran(c, sent, true) else Then(sent, DownloadEndCase(c, a))
  }

  function CommandXmit(command: GoodAction, accepted: bool): Effect
    requires command.kind == SEND_COMMAND
  {
    Xmit(command.Opcode(), command.Packet(), Command, accepted)
  }

  /** The cursor has moved on, within the script, to the rest of the actions. */
  predicate StandsBefore(c: Cfg, cur: Cursor, rest: seq<GoodAction>) {
    Placed(c.fw, cur, rest) && 0 <= cur.len < c.cur.len && cur.pos + cur.len == c.cur.pos + c.cur.len
  }

  /** Where the downloader starts on a script that has been loaded. */
  function ScriptStart(load: Load): Cursor
    requires load.Loaded?
  {
    Cursor(SCRIPT_HEADER_SIZE, load.size - SCRIPT_HEADER_SIZE)
  }

  /** How many more callbacks the run can take, when no script makes it send more commands than `most`. */
  function Budget(c: Cfg, most: nat): nat {
    match c.state
    case Idle => 0
    case Start => 6 + most
    case SetUartBaud => 5 + most
    case ReadBdAddr => 4 + most
    case SetBdAddr => 3 + most
    case ReadLocalVer => 2 + most
    case Download => 1 + Sends(c.fw, c.cur)
    case DownloadEnd => 1
  }

  predicate Bounded(load: Load, most: nat) {
    load.Loaded? ==> Sends(load.memory, ScriptStart(load)) <= most
  }

  ghost predicate Progressed(c: Cfg, k: Case, most: nat) {
    && k.Ran?
    && k.cfg.cbacks == c.cbacks
    && (k.proceeding && k.cfg.state != Idle ==> Budget(k.cfg, most) < Budget(c, most))
  }

  lemma DownloadProgresses(c: Cfg, a: Answers, most: nat)
    requires c.state == Download && Scan(c.fw, c.cur).Some?
    ensures Progressed(c, DownloadCase(c, a), most)
  {}

  lemma LoadProgresses(c: Cfg, ev: Memory, a: Answers, most: nat)
    requires c.state == ReadLocalVer && Bounded(a.load, most) && ReadLocalVerCase(c, ev, a).Ran?
    ensures Progressed(c, ReadLocalVerCase(c, ev, a), most)
  {
    if a.load.Loaded? {
      var d := Installed(c, a.load.p, a.load.memory, a.load.size);
      DownloadProgresses(d, a, most);
      assert Budget(d, most) < Budget(c, most);
    }
  }

  lemma SwitchProgresses(c: Cfg, ev: Memory, held: seq<byte>, a: Answers, most: nat)
    requires Bounded(a.load, most) && Switch(c, ev, held, a).Ran?
    ensures Progressed(c, Switch(c, ev, held, a), most)
  {
    if c.state == ReadLocalVer {
      LoadProgresses(c, ev, a, most);
    } else if c.state == Download {
      DownloadProgresses(c, a, most);
    } else {
      OthersProgress(c, ev, held, a, most);
    }
  }

  /** The states that reading and writing the address lead to. */
  lemma AddressStates(c: Cfg, ev: Memory, a: Answers)
    ensures var k := ReadBdAddrCase(c, ev, a);
            k.Ran? && k.cfg == c.(state := k.cfg.state) && k.cfg.state in {SetBdAddr, ReadLocalVer}
  {}

  lemma UartStates(c: Cfg, ev: Memory, a: Answers)
    ensures var k := SetUartBaudCase(c, ev, a);
            k.Ran? && k.cfg == c.(state := k.cfg.state) && k.cfg.state in {ReadBdAddr, SetBdAddr, ReadLocalVer}
  {
    AddressStates(c.(state := ReadBdAddr), ev, a);
  }

  lemma OthersProgress(c: Cfg, ev: Memory, held: seq<byte>, a: Answers, most: nat)
    requires c.state != ReadLocalVer && c.state != Download
    ensures Progressed(c, Switch(c, ev, held, a), most)
  {
    if c.state == SetUartBaud {
      UartStates(c, ev, a);
    } else if c.state == ReadBdAddr {
      AddressStates(c, ev, a);
    }
  }

  /** Every callback that returns ends the run, reporting once, or takes it one step nearer to its end. */
  lemma StepEndsOrProgresses(c: Cfg, ev: Memory, a: Answers, most: nat)
    requires c.cbacks && Bounded(a.load, most) && Step(c, ev, a).Returns?
    ensures var o := Step(c, ev, a);
            && o.cfg.cbacks
            && (o.cfg.state == Idle ==> |Only(o.effects, Reports)| == 1)
            && (o.cfg.state != Idle ==>
                  Only(o.effects, Reports) == [] && Budget(o.cfg, most) < Budget(c, most))
  {
    if Granted(c, ev, a) {
      SwitchProgresses(c, ev, a.buffer.value, a, most);
    }
    EveryBufferHasOneFate(c, ev, a);
  }

  /** The callback gets its buffer and comes to a download that meets a dropped command without its wait event. */
  ghost predicate MeetsStuck(c: Cfg, ev: Memory, a: Answers) {
    && Granted(c, ev, a)
    && match c.state
       case Download => !LoopEnds(c.fw, c.cur)
       case ReadLocalVer => a.load.Loaded? && !LoopEnds(a.load.memory, ScriptStart(a.load))
       case _ => false
  }

  lemma HangsIffStuck(c: Cfg, ev: Memory, a: Answers)
    ensures Step(c, ev, a).Hangs? <==> MeetsStuck(c, ev, a)
  {
    if c.state == Download {
      LoopEndsIffDropsAwaited(c.fw, c.cur);
    } else if c.state == ReadLocalVer && a.load.Loaded? {
      LoopEndsIffDropsAwaited(a.load.memory, ScriptStart(a.load));
    }
  }

  // ---------------------------------------------------------------- a run

  datatype Input = Input(ev: Memory, answers: Answers)

  /** Events keep coming until the run is over. */
  function Run(c: Cfg, inputs: seq<Input>): Outcome
    decreases |inputs|
  {
    if inputs == [] || c.state == Idle then Returns(c, [])
    else
      match Step(c, inputs[0].ev, inputs[0].answers)
      case Hangs => Hangs
      case Returns(c', first) =>
        match Run(c', inputs[1..])
        case Hangs => Hangs
        case Returns(end, rest) => Returns(end, first + rest)
  }

  /** Some callback of the run comes to a download that gets stuck. */
  ghost predicate ReachesStuck(c: Cfg, inputs: seq<Input>)
    decreases |inputs|
  {
    && inputs != [] && c.state != Idle
    && var i := inputs[0];
       var o := Step(c, i.ev, i.answers);
       MeetsStuck(c, i.ev, i.answers) || (o.Returns? && ReachesStuck(o.cfg, inputs[1..]))
  }

  /** Whatever the scripts and whatever the controller and the world answer: a run hangs exactly when a callback comes
      to a download that gets stuck. Otherwise a run that has ended has reported exactly once, and one that has not has
      reported nothing and has seen fewer callbacks than its budget allows. */
  lemma {:induction false} EveryRunEnds(c: Cfg, inputs: seq<Input>, most: nat)
    requires c.cbacks && c.state != Idle && forall i :: i in inputs ==> Bounded(i.answers.load, most)
    ensures Run(c, inputs).Hangs? <==> ReachesStuck(c, inputs)
    ensures var o := Run(c, inputs);
            o.Returns? ==>
              && (o.cfg.state == Idle ==> |Only(o.effects, Reports)| == 1)
              && (o.cfg.state != Idle ==>
                    Only(o.effects, Reports) == [] && Budget(o.cfg, most) + |inputs| <= Budget(c, most))
    decreases |inputs|
  {
    if inputs == [] {
    } else {
      var i := inputs[0];
      HangsIffStuck(c, i.ev, i.answers);
      var o := Step(c, i.ev, i.answers);
      if o.Returns? {
        StepEndsOrProgresses(c, i.ev, i.answers, most);
        if o.cfg.state == Idle {
          assert Run(o.cfg, inputs[1..]) == Returns(o.cfg, []);
          assert o.effects + [] == o.effects;
        } else {
          EveryRunEnds(o.cfg, inputs[1..], most);
          RunFirst(c, inputs, Reports);
        }
      }
    }
  }

  /** A run from its start, with an accepted reset, through these events. */
  function WholeRun(c: Cfg, inputs: seq<Input>): Outcome {
    var (begun, first) := Begin(c, true, true);
    match Run(begun, inputs)
    case Hangs => Hangs
    case Returns(end, effects) => Returns(end, first + effects)
  }

  /** From an accepted reset on, 6 + most callbacks are always enough, unless the run hangs. */
  lemma StartedRunReports(c: Cfg, inputs: seq<Input>, most: nat)
    requires c.cbacks && |inputs| >= 6 + most
    requires forall i :: i in inputs ==> Bounded(i.answers.load, most)
    ensures var o := WholeRun(c, inputs);
            && (o.Hangs? <==> ReachesStuck(c.(state := Start), inputs))
            && (o.Returns? ==> o.cfg.state == Idle && |Only(o.effects, Reports)| == 1)
  {
    var (begun, effects) := Begin(c, true, true);
    EveryRunEnds(begun, inputs, most);
    BeginParts(c, true, Reports);
    if Run(begun, inputs).Returns? {
      OnlyAppend(effects, Run(begun, inputs).effects, Reports);
    }
  }

  lemma BeginParts(c: Cfg, accepted: bool, part: Part)
    requires c.cbacks && part != Grants(Command) && part != Fates(Command)
    ensures Only(Begin(c, true, accepted).1, part)
         == if part == Transmissions then [Xmit(HCI_RESET, Parameterless(HCI_RESET), Command, accepted)] else []
  {
    var x := Xmit(HCI_RESET, Parameterless(HCI_RESET), Command, accepted);
    OnlyCons(Alloc(Command, true), [x], part);
    OnlyCons(x, [], part);
  }

  /** A run allocates at most one script buffer. When it ends, and only then, it frees one pointer: that buffer, or,
      if it allocated none, what fw_data held when the run began. */
  lemma {:induction false} ScriptBufferFreedOnce(c: Cfg, inputs: seq<Input>)
    requires c.cbacks && c.state != Idle && Run(c, inputs).Returns?
    ensures var o := Run(c, inputs);
            var mallocs := Only(o.effects, Mallocs);
            && Only(o.effects, Frees) == (if o.cfg.state == Idle then [FreeFw(o.cfg.fwData)] else [])
            && (mallocs == [] ==> o.cfg.fwData == c.fwData)
            && (mallocs != [] ==> mallocs == [MallocFw(o.cfg.fwData)])
            && (Late(c.state) ==> mallocs == [])
            && Only(o.effects, Heap) == mallocs + Only(o.effects, Frees)
            && o.cfg.cbacks
    decreases |inputs|
  {
    if inputs == [] {
    } else {
      var i := inputs[0];
      EveryBufferHasOneFate(c, i.ev, i.answers);
      var o := Step(c, i.ev, i.answers);
      var rest := Run(o.cfg, inputs[1..]);
      OnlyAppend(o.effects, rest.effects, Frees);
      OnlyAppend(o.effects, rest.effects, Mallocs);
      OnlyAppend(o.effects, rest.effects, Heap);
      if o.cfg.state != Idle {
        ScriptBufferFreedOnce(o.cfg, inputs[1..]);
      }
    }
  }

  // ---------------------------------------------------------------- the trace of a run in which all goes well

  predicate AllWell(i: Input) {
    && At(i.ev, 5) == 0
    && i.answers.buffer.Some?
    && i.answers.baud && i.answers.readAddr && i.answers.writeAddr && i.answers.readVersion && i.answers.command
    && i.answers.codec == Sent(true) && i.answers.enhanced == Sent(true)
  }

  function CommandXmits(commands: seq<GoodAction>): seq<Effect>
    requires forall a :: a in commands ==> a.kind == SEND_COMMAND
  {
    if commands == [] then [] else [CommandXmit(commands[0], true)] + CommandXmits(commands[1..])
  }

  const CODEC_XMITS: seq<Effect> :=
    [Xmit(HCI_VS_WRITE_CODEC_CONFIG, CODEC_PACKET, Codec, true)]
    + [Xmit(HCI_VS_WRITE_CODEC_CONFIG_ENHANCED, ENHANCED_PACKET, Enhanced, true)]

  /** A callback in which all goes well adds to these parts just what its case adds. */
  lemma WellStep(c: Cfg, i: Input, part: Part)
    requires c.cbacks && AllWell(i) && (part == Transmissions || part == Reports || part == Mallocs)
    ensures var k := Switch(c, i.ev, i.answers.buffer.value, i.answers);
            k.Ran? && k.proceeding && k.cfg.cbacks ==>
              && Step(c, i.ev, i.answers).Returns?
              && Step(c, i.ev, i.answers).cfg == k.cfg
              && Only(Step(c, i.ev, i.answers).effects, part) == Only(k.effects, part)
    ensures Switch(c, i.ev, i.answers.buffer.value, i.answers) == Hang ==> Step(c, i.ev, i.answers) == Hangs
  {
    var k := Switch(c, i.ev, i.answers.buffer.value, i.answers);
    if k.Ran? && k.proceeding && k.cfg.cbacks {
      NeutralFirst(Alloc(Command, true), k, part);
      OnlyAppend([Alloc(Command, true)] + k.effects, [Dealloc(Event)], part);
      OnlyCons(Dealloc(Event), [], part);
    }
  }

  lemma RunFirst(c: Cfg, inputs: seq<Input>, part: Part)
    requires inputs != [] && c.state != Idle && Step(c, inputs[0].ev, inputs[0].answers).Returns?
    ensures var o := Step(c, inputs[0].ev, inputs[0].answers);
            var rest := Run(o.cfg, inputs[1..]);
            && (rest.Hangs? <==> Run(c, inputs).Hangs?)
            && (rest.Returns? ==>
                  && Run(c, inputs).cfg == rest.cfg
                  && Only(Run(c, inputs).effects, part) == Only(o.effects, part) + Only(rest.effects, part))
  {
    var o := Step(c, inputs[0].ev, inputs[0].answers);
    var rest := Run(o.cfg, inputs[1..]);
    if rest.Returns? {
      OnlyAppend(o.effects, rest.effects, part);
    }
  }

  /** What a run is shown to do: it ends with one report of success after these transmissions, unless it hangs. */
  ghost predicate Traced(o: Outcome, sent: seq<Effect>, awaited: bool) {
    && (o.Returns? <==> awaited)
    && (o.Returns? ==>
          && o.cfg.state == Idle
          && Only(o.effects, Transmissions) == sent
          && Only(o.effects, Reports) == [FwCfg(true)])
  }

  /** The first callback goes on to c'; the rest of the run does what a run from c' does. */
  lemma TracedAfter(c: Cfg, inputs: seq<Input>, c': Cfg, first: seq<Effect>, sent: seq<Effect>, awaited: bool)
    requires c.cbacks && c.state != Idle && inputs != [] && AllWell(inputs[0]) && c'.cbacks
    requires Switch(c, inputs[0].ev, inputs[0].answers.buffer.value, inputs[0].answers) == Ran(c', first, true)
    requires Only(first, Reports) == [] && Traced(Run(c', inputs[1..]), sent, awaited)
    ensures Traced(Run(c, inputs), Only(first, Transmissions) + sent, awaited)
  {
    WellStep(c, inputs[0], Transmissions);
    WellStep(c, inputs[0], Reports);
    RunFirst(c, inputs, Transmissions);
    RunFirst(c, inputs, Reports);
  }

  /** The first callback sends one command and goes on to c'. */
  lemma TracedSend(c: Cfg, inputs: seq<Input>, c': Cfg, x: Effect, sent: seq<Effect>, awaited: bool)
    requires c.cbacks && c.state != Idle && inputs != [] && AllWell(inputs[0]) && c'.cbacks && x.Xmit?
    requires Switch(c, inputs[0].ev, inputs[0].answers.buffer.value, inputs[0].answers) == Ran(c', [x], true)
    requires Traced(Run(c', inputs[1..]), sent, awaited)
    ensures Traced(Run(c, inputs), [x] + sent, awaited)
  {
    OnlyCons(x, [], Transmissions);
    OnlyCons(x, [], Reports);
    TracedAfter(c, inputs, c', [x], sent, awaited);
  }

  lemma EndTrace(c: Cfg, inputs: seq<Input>, cur: Cursor)
    requires c.cbacks && c.state == Download && |inputs| == 1 && AllWell(inputs[0])
    requires DownloadCase(c, inputs[0].answers) == DownloadEndCase(c.(cur := cur), inputs[0].answers)
    ensures Traced(Run(c, inputs), CODEC_XMITS, true)
  {
    var i := inputs[0];
    DownloadEndParts(c.(cur := cur), i.answers, Transmissions);
    DownloadEndParts(c.(cur := cur), i.answers, Reports);
    WellStep(c, i, Transmissions);
    WellStep(c, i, Reports);
    RunFirst(c, inputs, Transmissions);
    RunFirst(c, inputs, Reports);
  }

  lemma CommandTrace(c: Cfg, inputs: seq<Input>, cur: Cursor, command: GoodAction, sent: seq<Effect>, awaited: bool)
    requires c.cbacks && c.state == Download && inputs != [] && AllWell(inputs[0]) && command.kind == SEND_COMMAND
    requires DownloadCase(c, inputs[0].answers) == SendCommand(c.(cur := cur), inputs[0].answers, command)
    requires Traced(Run(c.(cur := cur), inputs[1..]), sent, awaited)
    ensures Traced(Run(c, inputs), [CommandXmit(command, true)] + sent, awaited)
  {
    TracedSend(c, inputs, c.(cur := cur), CommandXmit(command, true), sent, awaited);
  }

  lemma StuckTrace(c: Cfg, inputs: seq<Input>, sent: seq<Effect>)
    requires c.cbacks && c.state == Download && inputs != [] && AllWell(inputs[0])
    requires DownloadCase(c, inputs[0].answers) == Hang
    ensures Traced(Run(c, inputs), sent, false)
  {
    WellStep(c, inputs[0], Transmissions);
  }

  /** The transmissions of the download of a script. */
  function DownloadSent(actions: seq<GoodAction>): seq<Effect> {
    CommandXmits(Commands(actions)) + CODEC_XMITS
  }

  lemma SentUnfolds(actions: seq<GoodAction>, command: GoodAction, rest: seq<GoodAction>)
    requires command.kind == SEND_COMMAND && Commands(actions) == [command] + Commands(rest)
    ensures DownloadSent(actions) == [CommandXmit(command, true)] + DownloadSent(rest)
  {
    var x := [CommandXmit(command, true)];
    assert Commands(actions)[1..] == Commands(rest);
    assert CommandXmits(Commands(actions)) == x + CommandXmits(Commands(rest));
    assert x + CommandXmits(Commands(rest)) + CODEC_XMITS == x + DownloadSent(rest);
  }

  /** Where the cursor stands once the next command of the script has been sent. */
  lemma AfterNext(c: Cfg, a: Answers, actions: seq<GoodAction>, command: GoodAction, rest: seq<GoodAction>)
    returns (cur: Cursor)
    requires Placed(c.fw, c.cur, actions) && NextCommand(actions, Tail(c.fw, c.cur)) == Found(command, rest)
    ensures command.Kept() && DownloadCase(c, a) == SendCommand(c.(cur := cur), a, command)
    ensures Placed(c.fw, cur, rest) && Tail(c.fw, cur) == Tail(c.fw, c.cur)
  {
    DownloadRefinesList(c, a, actions);
    cur :| DownloadCase(c, a) == SendCommand(c.(cur := cur), a, command) && StandsBefore(c, cur, rest);
  }

  lemma AtTheEnd(c: Cfg, inputs: seq<Input>, actions: seq<GoodAction>)
    requires c.cbacks && c.state == Download && Placed(c.fw, c.cur, actions) && |inputs| == 1 && AllWell(inputs[0])
    requires NextCommand(actions, Tail(c.fw, c.cur)) == Done
    ensures Traced(Run(c, inputs), CODEC_XMITS, true)
  {
    DownloadRefinesList(c, inputs[0].answers, actions);
    var cur :| DownloadCase(c, inputs[0].answers) == DownloadEndCase(c.(cur := cur), inputs[0].answers);
    EndTrace(c, inputs, cur);
  }

  /** The download, while all goes well, sends the commands of the script that are not dropped, in order, and then
      ends the run; it does not come back if and only if a dropped command has no wait event behind it. */
  lemma {:induction false} DownloadTrace(c: Cfg, inputs: seq<Input>, actions: seq<GoodAction>)
    requires c.cbacks && c.state == Download && Placed(c.fw, c.cur, actions)
    requires |inputs| == |Commands(actions)| + 1 && forall i :: i in inputs ==> AllWell(i)
    ensures Traced(Run(c, inputs), DownloadSent(actions), DropsAwaited(actions, Tail(c.fw, c.cur)))
    decreases |inputs|
  {
    var tail := Tail(c.fw, c.cur);
    NextCommandIsFirstOfCommands(actions, tail);
    match NextCommand(actions, tail)
    case Stuck =>
      DownloadRefinesList(c, inputs[0].answers, actions);
      StuckTrace(c, inputs, DownloadSent(actions));
    case Done => AtTheEnd(c, inputs, actions);
    case Found(command, rest) =>
      var cur := AfterNext(c, inputs[0].answers, actions, command, rest);
      DownloadTrace(c.(cur := cur), inputs[1..], rest);
      CommandTrace(c, inputs, cur, command, DownloadSent(rest), DropsAwaited(actions, tail));
      SentUnfolds(actions, command, rest);
  }

  ghost predicate ScriptIn(load: Load, actions: seq<GoodAction>) {
    load.Loaded? && Placed(load.memory, ScriptStart(load), actions)
  }

  ghost predicate AwaitedIn(load: Load, actions: seq<GoodAction>)
    requires load.Loaded?
  {
    DropsAwaited(actions, Tail(load.memory, ScriptStart(load)))
  }

  lemma LoadingIsNeutral(opening: Effect, malloc: Effect, effects: seq<Effect>, part: Part)
    requires opening.OpenScript? && malloc.MallocFw? && (part == Transmissions || part == Reports)
    ensures Only([opening] + [malloc] + effects, part) == Only(effects, part)
  {
    OnlyAppend([opening] + [malloc], effects, part);
    OnlyCons(opening, [malloc], part);
    OnlyCons(malloc, [], part);
  }

  /** The callback that loads the script adds to these parts what a callback in the download state would. */
  lemma LoadStep(c: Cfg, i: Input, part: Part)
    requires c.cbacks && c.state == ReadLocalVer && AllWell(i) && i.answers.load.Loaded?
    requires part == Transmissions || part == Reports
    ensures var load := i.answers.load;
            var s := Step(c, i.ev, i.answers);
            var t := Step(Installed(c, load.p, load.memory, load.size), i.ev, i.answers);
            && (s.Returns? <==> t.Returns?)
            && (s.Returns? ==> s.cfg == t.cfg && Only(s.effects, part) == Only(t.effects, part))
  {
    var load := i.answers.load;
    var d := Installed(c, load.p, load.memory, load.size);
    var k := DownloadCase(d, i.answers);
    if k.Ran? {
      DownloadSettled(d, i.answers);
      LoadingIsNeutral(OpenScript(VersionAt(i.ev)), MallocFw(load.p), k.effects, part);
    }
    WellStep(c, i, part);
    WellStep(d, i, part);
  }

  lemma LoadTrace(c: Cfg, inputs: seq<Input>, actions: seq<GoodAction>)
    requires c.cbacks && c.state == ReadLocalVer && inputs != []
    requires forall i :: i in inputs ==> AllWell(i)
    requires ScriptIn(inputs[0].answers.load, actions) && |inputs| == |Commands(actions)| + 1
    ensures Traced(Run(c, inputs), DownloadSent(actions), AwaitedIn(inputs[0].answers.load, actions))
  {
    var load := inputs[0].answers.load;
    var d := Installed(c, load.p, load.memory, load.size);
    DownloadTrace(d, inputs, actions);
    LoadStep(c, inputs[0], Transmissions);
    LoadStep(c, inputs[0], Reports);
    if Step(c, inputs[0].ev, inputs[0].answers).Returns? {
      RunFirst(c, inputs, Transmissions);
      RunFirst(c, inputs, Reports);
      RunFirst(d, inputs, Transmissions);
      RunFirst(d, inputs, Reports);
    }
  }

  function Reset(): Effect { Xmit(HCI_RESET, Parameterless(HCI_RESET), Command, true) }
  function Baud(held: seq<byte>): Effect { Xmit(HCI_VSC_UPDATE_BAUDRATE, BaudPacket(held), Command, true) }
  function ReadAddr(): Effect { Xmit(HCI_READ_LOCAL_BDADDR, Parameterless(HCI_READ_LOCAL_BDADDR), Command, true) }
  function WriteAddr(addr: seq<byte>): Effect { Xmit(HCI_VSC_WRITE_BD_ADDR, WriteAddrPacket(addr), Command, true) }
  function ReadVersion(): Effect { Xmit(HCI_READ_LOCAL_VERSION, Parameterless(HCI_READ_LOCAL_VERSION), Command, true) }

  /** The controller reported no address of its own. */
  predicate Blank(i: Input) { Read(i.ev, 6, BD_ADDR_LEN) == NULL_BDADDR }

  /** All goes well, the controller reports an address of its own, and loading the script goes like this. */
  function Calm(load: Load): Input {
    Input([0, 0, 0, 0, 0, 0, 1],
          Answers(Some([]), true, true, true, true, load, true, Sent(true), Sent(true)))
  }

  lemma NotBlank(load: Load)
    ensures !Blank(Calm(load)) && AllWell(Calm(load))
  {
    var ev := Calm(load).ev;
    assert Read(ev, 6, BD_ADDR_LEN)[0] == At(ev, 6);
  }

  /** What follows the answer to Read BD_ADDR. */
  function AddressSent(blank: bool, addr: seq<byte>, actions: seq<GoodAction>): seq<Effect> {
    if blank then [WriteAddr(addr)] + ([ReadVersion()] + DownloadSent(actions))
    else [ReadVersion()] + DownloadSent(actions)
  }

  lemma OwnAddressTrace(c: Cfg, inputs: seq<Input>, actions: seq<GoodAction>)
    requires |inputs| == 2 + |Commands(actions)| && ScriptIn(inputs[1].answers.load, actions)
    requires c.cbacks && (c.state == SetBdAddr || (c.state == ReadBdAddr && !Blank(inputs[0])))
    requires forall i :: i in inputs ==> AllWell(i)
    ensures Traced(Run(c, inputs), [ReadVersion()] + DownloadSent(actions),
                   AwaitedIn(inputs[1].answers.load, actions))
  {
    var later := c.(state := ReadLocalVer);
    LoadTrace(later, inputs[1..], actions);
    TracedSend(c, inputs, later, ReadVersion(), DownloadSent(actions), AwaitedIn(inputs[1].answers.load, actions));
  }

  lemma BlankAddressTrace(c: Cfg, inputs: seq<Input>, actions: seq<GoodAction>)
    requires c.cbacks && c.state == ReadBdAddr
    requires |inputs| == 3 + |Commands(actions)| && ScriptIn(inputs[2].answers.load, actions) && Blank(inputs[0])
    requires forall i :: i in inputs ==> AllWell(i)
    ensures Traced(Run(c, inputs), AddressSent(true, c.addr, actions), AwaitedIn(inputs[2].answers.load, actions))
  {
    var written := c.(state := SetBdAddr);
    OwnAddressTrace(written, inputs[1..], actions);
    TracedSend(c, inputs, written, WriteAddr(c.addr), [ReadVersion()] + DownloadSent(actions),
               AwaitedIn(inputs[2].answers.load, actions));
  }

  lemma UartTrace(c: Cfg, inputs: seq<Input>, sent: seq<Effect>, awaited: bool)
    requires c.cbacks && c.state == SetUartBaud && inputs != [] && AllWell(inputs[0])
    requires Traced(Run(c.(state := ReadBdAddr), inputs[1..]), sent, awaited)
    ensures Traced(Run(c, inputs), [ReadAddr()] + sent, awaited)
  {
    var baud := HostBaud(UART_TARGET_BAUD_RATE);
    OnlyCons(baud, [ReadAddr()], Transmissions);
    OnlyCons(baud, [ReadAddr()], Reports);
    OnlyCons(ReadAddr(), [], Transmissions);
    OnlyCons(ReadAddr(), [], Reports);
    TracedAfter(c, inputs, c.(state := ReadBdAddr), [baud] + [ReadAddr()], sent, awaited);
  }

  /** The index of the callback that loads the script: one later if the controller reported no address. */
  function LoadIndex(inputs: seq<Input>): nat
    requires |inputs| > 2
  {
    if Blank(inputs[2]) then 4 else 3
  }

  lemma StartTrace(c: Cfg, inputs: seq<Input>, actions: seq<GoodAction>)
    requires c.cbacks && c.state == Start
    requires forall i :: i in inputs ==> AllWell(i)
    requires |inputs| > 2 && |inputs| == LoadIndex(inputs) + 1 + |Commands(actions)|
    requires ScriptIn(inputs[LoadIndex(inputs)].answers.load, actions)
    ensures inputs[0].answers.buffer.Some?
    ensures Traced(Run(c, inputs),
                   [Baud(inputs[0].answers.buffer.value)]
                   + ([ReadAddr()] + AddressSent(Blank(inputs[2]), c.addr, actions)),
                   AwaitedIn(inputs[LoadIndex(inputs)].answers.load, actions))
  {
    var awaited := AwaitedIn(inputs[LoadIndex(inputs)].answers.load, actions);
    var sent := AddressSent(Blank(inputs[2]), c.addr, actions);
    var asked := c.(state := ReadBdAddr);
    var baud := c.(state := SetUartBaud);
    var rest := inputs[1..];
    assert rest[1..] == inputs[2..];
    if Blank(inputs[2]) {
      BlankAddressTrace(asked, inputs[2..], actions);
    } else {
      OwnAddressTrace(asked, inputs[2..], actions);
    }
    UartTrace(baud, rest, sent, awaited);
    assert AllWell(inputs[0]);
    TracedSend(c, inputs, baud, Baud(inputs[0].answers.buffer.value), [ReadAddr()] + sent, awaited);
  }

  lemma ResetFirst(c: Cfg, inputs: seq<Input>, sent: seq<Effect>, awaited: bool)
    requires c.cbacks && Traced(Run(c.(state := Start), inputs), sent, awaited)
    ensures Traced(WholeRun(c, inputs), [Reset()] + sent, awaited)
  {
    var (begun, first) := Begin(c, true, true);
    var o := Run(begun, inputs);
    if o.Returns? {
      OnlyAppend(first, o.effects, Transmissions);
      OnlyAppend(first, o.effects, Reports);
      BeginParts(c, true, Transmissions);
      BeginParts(c, true, Reports);
    }
  }

  /** Everything a run transmits in which all goes well. */
  function AllSent(c: Cfg, inputs: seq<Input>, actions: seq<GoodAction>): seq<Effect>
    requires |inputs| > 2 && AllWell(inputs[0])
  {
    [Reset()] + ([Baud(inputs[0].answers.buffer.value)]
    + ([ReadAddr()] + AddressSent(Blank(inputs[2]), c.addr, actions)))
  }

  /** A whole run in which everything is accepted and every status is 0 transmits exactly: Reset, Update Baudrate,
      Read BD_ADDR, Write BD_ADDR if and only if the controller reported the null address, Read Local Version, the
      commands of the script that are not dropped, and the two codec commands; and it reports success once. It does
      so if and only if every dropped command of the script has a wait event behind it; otherwise it hangs. */
  lemma WholeRunTrace(c: Cfg, inputs: seq<Input>, actions: seq<GoodAction>)
    requires c.cbacks
    requires forall i :: i in inputs ==> AllWell(i)
    requires |inputs| > 2 && |inputs| == LoadIndex(inputs) + 1 + |Commands(actions)|
    requires ScriptIn(inputs[LoadIndex(inputs)].answers.load, actions)
    ensures Traced(WholeRun(c, inputs), AllSent(c, inputs, actions),
                   AwaitedIn(inputs[LoadIndex(inputs)].answers.load, actions))
  {
    var begun := c.(state := Start);
    StartTrace(begun, inputs, actions);
    ResetFirst(c, inputs,
      [Baud(inputs[0].answers.buffer.value)] + ([ReadAddr()] + AddressSent(Blank(inputs[2]), c.addr, actions)),
      AwaitedIn(inputs[LoadIndex(inputs)].answers.load, actions));
  }
}
