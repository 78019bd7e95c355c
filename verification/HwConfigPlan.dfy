/** The configuration as one straight program, and that the callbacks carry it out. */
module HwConfigPlan {
  import opened Bytes
  import opened BtsScript
  import opened HwConfig
  import opened HwConfigRuns
  import opened Sequences

  // ---------------------------------------------------------------- what others see

  /** Everything but the buffers that come and go. */
  function World(es: seq<Effect>): seq<Effect> {
    if es == [] then []
    else if es[0].Alloc? || es[0].Dealloc? then World(es[1..])
    else [es[0]] + World(es[1..])
  }

  lemma {:induction false} WorldAppend(a: seq<Effect>, b: seq<Effect>)
    ensures World(a + b) == World(a) + World(b)
  {
    if a == [] {
      assert a + b == b;
    } else {
      assert (a + b)[1..] == a[1..] + b;
      WorldAppend(a[1..], b);
    }
  }

  lemma WorldOne(e: Effect)
    ensures World([e]) == if e.Alloc? || e.Dealloc? then [] else [e]
  {
    assert [e][1..] == [];
  }

  lemma WorldTwo(e: Effect, f: Effect)
    ensures World([e] + [f]) == World([e]) + World([f])
  {
    WorldAppend([e], [f]);
  }

  // ---------------------------------------------------------------- the program

  datatype HciCommand = HciCommand(opcode: u16, packet: seq<byte>)

  /** The commands of a script, from the cursor on, up to where the download would get stuck. */
  function Script(m: Memory, c: Cursor): seq<HciCommand>
    decreases if c.pos < |m| then |m| - c.pos else 0
  {
    match Scan(m, c)
    case None => []
    case Some(d) =>
      if KindAt(m, d.pos) != SEND_COMMAND then []
      else
        ScanKeepsEnd(m, c);
        CommandIsThere(m, d.pos);
        [HciCommand(OpcodeAt(m, d.pos), PacketAt(m, d.pos))] + Script(m, Past(m, d))
  }

  /** The event says that the last command went well, and there is a buffer for the next. */
  predicate Good(i: Input) { At(i.ev, 5) == 0 && i.answers.buffer.Some? }

  function Request(opcode: u16, packet: seq<byte>, accepted: bool): seq<Effect> {
    [Xmit(opcode, packet, Command, accepted)]
  }

  function GiveUp(fw: nat): seq<Effect> { [FreeFw(fw)] + [FwCfg(false)] }

  /** Wait for an event and ask for the baud rate; give up if it is refused. */
  function FromReset(addr: seq<byte>, fw: nat, inputs: seq<Input>): seq<Effect> {
    if inputs == [] then []
    else if !Good(inputs[0]) then GiveUp(fw)
    else
      var a := inputs[0].answers;
      Request(HCI_VSC_UPDATE_BAUDRATE, BaudPacket(a.buffer.value), a.baud)
      + if a.baud then FromBaud(addr, fw, inputs[1..]) else GiveUp(fw)
  }

  /** Wait; set the host's own speed and ask for the address. */
  function FromBaud(addr: seq<byte>, fw: nat, inputs: seq<Input>): seq<Effect> {
    if inputs == [] then []
    else if !Good(inputs[0]) then GiveUp(fw)
    else [HostBaud(UART_TARGET_BAUD_RATE)] + AskAddress(addr, fw, inputs)
  }

  /** Wait for the address if the request is accepted. */
  function AskAddress(addr: seq<byte>, fw: nat, inputs: seq<Input>): seq<Effect>
    requires inputs != []
  {
    var accepted := inputs[0].answers.readAddr;
    Request(HCI_READ_LOCAL_BDADDR, Parameterless(HCI_READ_LOCAL_BDADDR), accepted)
    + if accepted then FromReadAddr(addr, fw, inputs[1..]) else Address(addr, fw, inputs)
  }

  function FromReadAddr(addr: seq<byte>, fw: nat, inputs: seq<Input>): seq<Effect> {
    if inputs == [] then [] else if !Good(inputs[0]) then GiveUp(fw) else Address(addr, fw, inputs)
  }

  /** Write the host's address if the event at hand shows none. Wait if that is accepted. */
  function Address(addr: seq<byte>, fw: nat, inputs: seq<Input>): seq<Effect>
    requires inputs != []
  {
    if !Blank(inputs[0]) then AskVersion(fw, inputs)
    else
      var accepted := inputs[0].answers.writeAddr;
      Request(HCI_VSC_WRITE_BD_ADDR, WriteAddrPacket(addr), accepted)
      + if accepted then FromWriteAddr(fw, inputs[1..]) else AskVersion(fw, inputs)
  }

  function FromWriteAddr(fw: nat, inputs: seq<Input>): seq<Effect> {
    if inputs == [] then [] else if !Good(inputs[0]) then GiveUp(fw) else AskVersion(fw, inputs)
  }

  /** Ask for the version; give up if that is refused. */
  function AskVersion(fw: nat, inputs: seq<Input>): seq<Effect>
    requires inputs != []
  {
    var accepted := inputs[0].answers.readVersion;
    Request(HCI_READ_LOCAL_VERSION, Parameterless(HCI_READ_LOCAL_VERSION), accepted)
    + if accepted then FromVersion(fw, inputs[1..]) else GiveUp(fw)
  }

  /** Wait; open the script of that version, and give up if it cannot be had. */
  function FromVersion(fw: nat, inputs: seq<Input>): seq<Effect> {
    if inputs == [] then []
    else if !Good(inputs[0]) then GiveUp(fw)
    else
      [OpenScript(VersionAt(inputs[0].ev))] +
      match inputs[0].answers.load
      case NoFile => GiveUp(fw)
      case NoMemory(_) => [MallocFw(0)] + GiveUp(0)
      case ShortRead(p, _) => [MallocFw(p)] + GiveUp(p)
      case Loaded(p, m, _) => [MallocFw(p)] + Send(p, Script(m, ScriptStart(inputs[0].answers.load)), inputs)
  }

  /** Send the commands, waiting after each, until one is refused; that is not a failure. */
  function Send(fw: nat, commands: seq<HciCommand>, inputs: seq<Input>): seq<Effect>
    requires inputs != []
    decreases |inputs|
  {
    var a := inputs[0].answers;
    if commands == [] then Finish(fw, a)
    else
      Request(commands[0].opcode, commands[0].packet, a.command)
      + if !a.command then Finish(fw, a)
        else if |inputs| == 1 then []
        else if !Good(inputs[1]) then GiveUp(fw)
        else Send(fw, commands[1..], inputs[1..])
  }

  /** Give the script back, configure the codec, whether there is a buffer for it or not, and report success. */
  function Finish(fw: nat, a: Answers): seq<Effect> {
    [FreeFw(fw)] + (Codecs(a) + [FwCfg(true)])
  }

  function Codecs(a: Answers): seq<Effect> {
    (if a.codec.NoBuffer? then [ScoCfg(false)]
     else [Xmit(HCI_VS_WRITE_CODEC_CONFIG, CODEC_PACKET, Codec, a.codec.accepted)])
    + (if a.enhanced.NoBuffer? then [ScoCfg(false)]
       else [Xmit(HCI_VS_WRITE_CODEC_CONFIG_ENHANCED, ENHANCED_PACKET, Enhanced, a.enhanced.accepted)])
  }

  // ---------------------------------------------------------------- the callbacks carry it out

  /** What is left of the program in a state. */
  function Left(c: Cfg, inputs: seq<Input>): seq<Effect> {
    match c.state
    case Idle => []
    case Start => FromReset(c.addr, c.fwData, inputs)
    case SetUartBaud => FromBaud(c.addr, c.fwData, inputs)
    case ReadBdAddr => FromReadAddr(c.addr, c.fwData, inputs)
    case SetBdAddr => FromWriteAddr(c.fwData, inputs)
    case ReadLocalVer => FromVersion(c.fwData, inputs)
    case Download =>
      if inputs == [] then [] else if !Good(inputs[0]) then GiveUp(c.fwData)
      else Send(c.fwData, Script(c.fw, c.cur), inputs)
    case DownloadEnd =>
      if inputs == [] then [] else if !Good(inputs[0]) then GiveUp(c.fwData) else Finish(c.fwData, inputs[0].answers)
  }

  /** What follows the switch: the program goes on, or has ended, or gives up. */
  function Onward(k: Case, rest: seq<Input>): seq<Effect>
    requires k.Ran?
  {
    if k.proceeding then Left(k.cfg, rest) else GiveUp(k.cfg.fwData)
  }

  lemma WorldOfStep(c: Cfg, i: Input)
    requires c.cbacks && Step(c, i.ev, i.answers).Returns?
    ensures Good(i) <==> Granted(c, i.ev, i.answers)
    ensures !Good(i) ==> World(Step(c, i.ev, i.answers).effects) == GiveUp(c.fwData)
    ensures Good(i) ==>
              var k := Switch(c, i.ev, i.answers.buffer.value, i.answers);
              && k.Ran?
              && (k.cfg.cbacks ==>
                    World(Step(c, i.ev, i.answers).effects)
                    == World(k.effects) + (if k.proceeding then [] else GiveUp(k.cfg.fwData)))
  {
    var k := AllocCase(c, i.ev, i.answers);
    var granted := Granted(c, i.ev, i.answers);
    WorldAppend(k.effects, Closing(k.cfg, granted, k.proceeding));
    WorldOne(Alloc(Command, granted));
    WorldOfClosing(k.cfg, granted, k.proceeding);
    if granted {
      WorldAppend([Alloc(Command, true)], Switch(c, i.ev, i.answers.buffer.value, i.answers).effects);
    }
  }

  lemma WorldOfClosing(c: Cfg, granted: bool, proceeding: bool)
    ensures c.cbacks ==> World(Closing(c, granted, proceeding)) == if proceeding then [] else GiveUp(c.fwData)
  {
    var command := if granted then [Dealloc(Command)] else [];
    WorldOne(Dealloc(Event));
    WorldOne(Dealloc(Command));
    WorldOne(FreeFw(c.fwData));
    WorldOne(FwCfg(false));
    WorldTwo(FreeFw(c.fwData), FwCfg(false));
    WorldAppend(command, GiveUp(c.fwData));
    WorldAppend([Dealloc(Event)], command + GiveUp(c.fwData));
  }

  lemma WorldOfCodec(b: Buffer, opcode: u16, packet: seq<byte>, s: Send)
    ensures World(WriteCodec(b, opcode, packet, s))
         == if s.NoBuffer? then [ScoCfg(false)] else [Xmit(opcode, packet, b, s.accepted)]
  {
    match s
    case NoBuffer =>
      WorldTwo(Alloc(b, false), ScoCfg(false));
      WorldOne(Alloc(b, false));
      WorldOne(ScoCfg(false));
    case Sent(accepted) =>
      WorldTwo(Alloc(b, true), Xmit(opcode, packet, b, accepted));
      WorldOne(Alloc(b, true));
      WorldOne(Xmit(opcode, packet, b, accepted));
  }

  lemma EndFollows(c: Cfg, a: Answers, rest: seq<Input>)
    ensures var k := DownloadEndCase(c, a);
            World(k.effects) == Finish(c.fwData, a) && Onward(k, rest) == []
  {
    var codec := WriteCodec(Codec, HCI_VS_WRITE_CODEC_CONFIG, CODEC_PACKET, a.codec);
    var enhanced := WriteCodec(Enhanced, HCI_VS_WRITE_CODEC_CONFIG_ENHANCED, ENHANCED_PACKET, a.enhanced);
    WorldOfCodec(Codec, HCI_VS_WRITE_CODEC_CONFIG, CODEC_PACKET, a.codec);
    WorldOfCodec(Enhanced, HCI_VS_WRITE_CODEC_CONFIG_ENHANCED, ENHANCED_PACKET, a.enhanced);
    WorldOne(FwCfg(true));
    WorldOne(Dealloc(Command));
    WorldOne(FreeFw(c.fwData));
    WorldAppend(enhanced, [FwCfg(true)]);
    WorldAppend(codec, enhanced + [FwCfg(true)]);
    WorldAppend([FreeFw(c.fwData)], codec + (enhanced + [FwCfg(true)]));
    WorldAppend([Dealloc(Command)], [FreeFw(c.fwData)] + (codec + (enhanced + [FwCfg(true)])));
    assert World(codec) + (World(enhanced) + [FwCfg(true)]) == Codecs(a) + [FwCfg(true)];
  }

  /** An effect in front of what follows. */
  lemma ThenFollows(e: Effect, k: Case, rest: seq<Input>)
    requires k.Ran? && !e.Alloc? && !e.Dealloc?
    ensures World(Then([e], k).effects) + Onward(Then([e], k), rest) == [e] + (World(k.effects) + Onward(k, rest))
  {
    SeenFirst([e], k.effects, Onward(k, rest));
    WorldOne(e);
    OnwardThen([e], k, rest);
  }

  lemma OnwardThen(first: seq<Effect>, k: Case, rest: seq<Input>)
    requires k.Ran?
    ensures Onward(Then(first, k), rest) == Onward(k, rest)
  {}

  lemma SeenFirst(first: seq<Effect>, es: seq<Effect>, onward: seq<Effect>)
    ensures World(first + es) + onward == World(first) + (World(es) + onward)
  {
    WorldAppend(first, es);
    Assoc(World(first), World(es), onward);
  }

  /** A request after which the switch ends. */
  lemma RequestFollows(x: Effect, c: Cfg, rest: seq<Input>)
    requires x.Xmit?
    ensures var k := Ran(c, [x], x.accepted);
            World(k.effects) + Onward(k, rest) == [x] + if x.accepted then Left(c, rest) else GiveUp(c.fwData)
  {
    WorldOne(x);
  }

  /** What a case of the switch does, with what follows it, is what the program says. */
  ghost predicate Follows(k: Case, rest: seq<Input>, program: seq<Effect>) {
    k.Ran? ==> World(k.effects) + Onward(k, rest) == program
  }

  lemma VersionFollows(c: Cfg, i: Input, rest: seq<Input>)
    ensures Follows(SetBdAddrCase(c, i.answers), rest, AskVersion(c.fwData, [i] + rest))
  {
    assert ([i] + rest)[1..] == rest;
    RequestFollows(Xmit(HCI_READ_LOCAL_VERSION, Parameterless(HCI_READ_LOCAL_VERSION), Command,
                        i.answers.readVersion), c.(state := ReadLocalVer), rest);
  }

  lemma AddressFollows(c: Cfg, i: Input, rest: seq<Input>)
    ensures Follows(ReadBdAddrCase(c, i.ev, i.answers), rest, Address(c.addr, c.fwData, [i] + rest))
  {
    assert ([i] + rest)[1..] == rest;
    VersionFollows(c, i, rest);
    var c' := c.(state := SetBdAddr);
    var x := Xmit(HCI_VSC_WRITE_BD_ADDR, WriteAddrPacket(c.addr), Command, i.answers.writeAddr);
    if i.answers.writeAddr {
      RequestFollows(x, c', rest);
    } else {
      VersionFollows(c', i, rest);
      ThenFollows(x, SetBdAddrCase(c', i.answers), rest);
    }
  }

  function AskAddressCase(c: Cfg, i: Input): Case {
    var x := Xmit(HCI_READ_LOCAL_BDADDR, Parameterless(HCI_READ_LOCAL_BDADDR), Command, i.answers.readAddr);
    var c' := c.(state := ReadBdAddr);
    if i.answers.readAddr then Ran(c', [x], true) else Then([x], ReadBdAddrCase(c', i.ev, i.answers))
  }

  lemma AskAddressFollows(c: Cfg, i: Input, rest: seq<Input>)
    requires Good(i)
    ensures Follows(AskAddressCase(c, i), rest, AskAddress(c.addr, c.fwData, [i] + rest))
  {
    assert ([i] + rest)[1..] == rest;
    var c' := c.(state := ReadBdAddr);
    var x := Xmit(HCI_READ_LOCAL_BDADDR, Parameterless(HCI_READ_LOCAL_BDADDR), Command, i.answers.readAddr);
    if i.answers.readAddr {
      RequestFollows(x, c', rest);
    } else {
      AddressFollows(c', i, rest);
      ThenFollows(x, ReadBdAddrCase(c', i.ev, i.answers), rest);
    }
  }

  lemma BaudThenAddress(c: Cfg, i: Input)
    ensures SetUartBaudCase(c, i.ev, i.answers) == Then([HostBaud(UART_TARGET_BAUD_RATE)], AskAddressCase(c, i))
  {
    var k := ReadBdAddrCase(c.(state := ReadBdAddr), i.ev, i.answers);
    var x := Xmit(HCI_READ_LOCAL_BDADDR, Parameterless(HCI_READ_LOCAL_BDADDR), Command, i.answers.readAddr);
    if k.Ran? {
      Assoc([HostBaud(UART_TARGET_BAUD_RATE)], [x], k.effects);
    }
  }

  lemma BaudFollows(c: Cfg, i: Input, rest: seq<Input>)
    requires Good(i)
    ensures Follows(SetUartBaudCase(c, i.ev, i.answers), rest, FromBaud(c.addr, c.fwData, [i] + rest))
  {
    AskAddressFollows(c, i, rest);
    BaudThenAddress(c, i);
    if AskAddressCase(c, i).Ran? {
      ThenFollows(HostBaud(UART_TARGET_BAUD_RATE), AskAddressCase(c, i), rest);
    }
  }

  lemma SendFollows(c: Cfg, i: Input, rest: seq<Input>)
    requires c.state == Download
    ensures Follows(DownloadCase(c, i.answers), rest, Send(c.fwData, Script(c.fw, c.cur), [i] + rest))
  {
    assert ([i] + rest)[1..] == rest;
    match Scan(c.fw, c.cur)
    case None =>
    case Some(d) =>
      if KindAt(c.fw, d.pos) != SEND_COMMAND {
        EndFollows(c.(cur := d), i.answers, rest);
      } else {
        var c' := c.(cur := Past(c.fw, d));
        var x := Xmit(OpcodeAt(c.fw, d.pos), PacketAt(c.fw, d.pos), Command, i.answers.command);
        assert Script(c.fw, c.cur)[1..] == Script(c'.fw, c'.cur);
        if i.answers.command {
          RequestFollows(x, c', rest);
          assert rest != [] ==> ([i] + rest)[1] == rest[0];
        } else {
          EndFollows(c', i.answers, rest);
          ThenFollows(x, DownloadEndCase(c', i.answers), rest);
        }
      }
  }

  lemma LoadFollows(c: Cfg, i: Input, rest: seq<Input>)
    requires Good(i)
    ensures Follows(ReadLocalVerCase(c, i.ev, i.answers), rest, FromVersion(c.fwData, [i] + rest))
  {
    var open := OpenScript(VersionAt(i.ev));
    match i.answers.load
    case NoFile => WorldOne(open);
    case NoMemory(size) => OpenedAndFailed(open, 0);
    case ShortRead(p, size) => OpenedAndFailed(open, p);
    case Loaded(p, m, size) => LoadedFollows(c, i, rest);
  }

  lemma LoadedFollows(c: Cfg, i: Input, rest: seq<Input>)
    requires Good(i) && i.answers.load.Loaded?
    ensures Follows(ReadLocalVerCase(c, i.ev, i.answers), rest, FromVersion(c.fwData, [i] + rest))
  {
    var load := i.answers.load;
    var open, malloc := OpenScript(VersionAt(i.ev)), MallocFw(load.p);
    var d := Installed(c, load.p, load.memory, load.size);
    var k := DownloadCase(d, i.answers);
    SendFollows(d, i, rest);
    if k.Ran? {
      OnwardThen([open] + [malloc], k, rest);
      LoadedAndSent(open, load.p, k.effects, Onward(k, rest));
    }
  }

  lemma LoadedAndSent(open: Effect, p: nat, es: seq<Effect>, onward: seq<Effect>)
    requires open.OpenScript?
    ensures World([open] + [MallocFw(p)] + es) + onward == [open] + ([MallocFw(p)] + (World(es) + onward))
  {
    SeenFirst([open] + [MallocFw(p)], es, onward);
    OpenedAndFailed(open, p);
    Assoc([open], [MallocFw(p)], World(es) + onward);
  }

  lemma OpenedAndFailed(open: Effect, p: nat)
    requires open.OpenScript?
    ensures World([open] + [MallocFw(p)]) == [open] + [MallocFw(p)]
    ensures [open] + [MallocFw(p)] + GiveUp(p) == [open] + ([MallocFw(p)] + GiveUp(p))
  {
    WorldTwo(open, MallocFw(p));
    WorldOne(open);
    WorldOne(MallocFw(p));
  }

  lemma SwitchFollows(c: Cfg, i: Input, rest: seq<Input>)
    requires c.state != Idle && Good(i)
    ensures Follows(Switch(c, i.ev, i.answers.buffer.value, i.answers), rest, Left(c, [i] + rest))
  {
    assert ([i] + rest)[1..] == rest && ([i] + rest)[0] == i;
    match c.state
    case Start => RequestFollows(Xmit(HCI_VSC_UPDATE_BAUDRATE, BaudPacket(i.answers.buffer.value), Command,
                                      i.answers.baud), c.(state := SetUartBaud), rest);
    case SetUartBaud => BaudFollows(c, i, rest);
    case ReadBdAddr => AddressFollows(c, i, rest);
    case SetBdAddr => VersionFollows(c, i, rest);
    case ReadLocalVer => LoadFollows(c, i, rest);
    case Download => SendFollows(c, i, rest);
    case DownloadEnd => EndFollows(c, i.answers, rest);
  }

  lemma StepFollows(c: Cfg, i: Input, rest: seq<Input>)
    requires c.cbacks && c.state != Idle && Step(c, i.ev, i.answers).Returns?
    ensures var o := Step(c, i.ev, i.answers);
            o.cfg.cbacks && World(o.effects) + Left(o.cfg, rest) == Left(c, [i] + rest)
  {
    WorldOfStep(c, i);
    EveryBufferHasOneFate(c, i.ev, i.answers);
    if Good(i) {
      GoodStepFollows(c, i, rest);
    } else {
      BadStepFollows(c, i, rest);
    }
  }

  lemma BadStepFollows(c: Cfg, i: Input, rest: seq<Input>)
    requires c.state != Idle && !Good(i)
    ensures Left(c, [i] + rest) == GiveUp(c.fwData) && Left(c.(state := Idle), rest) == []
  {}

  lemma GoodStepFollows(c: Cfg, i: Input, rest: seq<Input>)
    requires c.cbacks && c.state != Idle && Step(c, i.ev, i.answers).Returns? && Good(i)
    ensures var o := Step(c, i.ev, i.answers);
            World(o.effects) + Left(o.cfg, rest) == Left(c, [i] + rest)
  {
    var k := Switch(c, i.ev, i.answers.buffer.value, i.answers);
    WorldOfStep(c, i);
    SwitchSettled(c, i.ev, i.answers.buffer.value, i.answers);
    SwitchFollows(c, i, rest);
    if k.proceeding {
      assert World(k.effects) + [] == World(k.effects);
    } else {
      assert (World(k.effects) + GiveUp(k.cfg.fwData)) + [] == World(k.effects) + GiveUp(k.cfg.fwData);
    }
  }

  lemma {:induction false} RunFollows(c: Cfg, inputs: seq<Input>)
    requires c.cbacks && c.state != Idle && Run(c, inputs).Returns?
    ensures World(Run(c, inputs).effects) == Left(c, inputs)
    decreases |inputs|
  {
    if inputs == [] {
    } else {
      var i, rest := inputs[0], inputs[1..];
      var o := Step(c, i.ev, i.answers);
      HeadAndTail(inputs);
      StepFollows(c, i, rest);
      WorldAppend(o.effects, Run(o.cfg, rest).effects);
      if o.cfg.state != Idle {
        RunFollows(o.cfg, rest);
      } else {
        assert Run(o.cfg, rest).effects == [];
      }
    }
  }

  /** Whatever the controller, the stack, the allocator and the file system answer, and whatever is in the script: a
      run that comes back does what the straight program does, in that order, and nothing else. */
  lemma RunsCarryOutTheProgram(c: Cfg, inputs: seq<Input>)
    requires c.cbacks && WholeRun(c, inputs).Returns?
    ensures World(WholeRun(c, inputs).effects)
         == Request(HCI_RESET, Parameterless(HCI_RESET), true) + FromReset(c.addr, c.fwData, inputs)
  {
    var (begun, first) := Begin(c, true, true);
    RunFollows(begun, inputs);
    WorldAppend(first, Run(begun, inputs).effects);
    WorldTwo(first[0], first[1]);
    WorldOne(first[0]);
    WorldOne(first[1]);
  }

  /** A start without a buffer for the reset reports failure at once, and one before the callbacks are installed does
      nothing; otherwise the reset is sent, and its acceptance is not looked at. */
  lemma StartsOrFails(c: Cfg, got: bool, accepted: bool)
    ensures var (begun, first) := Begin(c, got, accepted);
            && begun == c.(state := if c.cbacks && got then Start else Idle)
            && World(first) == (if !c.cbacks then []
                                else if got then Request(HCI_RESET, Parameterless(HCI_RESET), accepted)
                                else [FwCfg(false)])
  {
    var x := Xmit(HCI_RESET, Parameterless(HCI_RESET), Command, accepted);
    WorldTwo(Alloc(Command, true), x);
    WorldTwo(Alloc(Command, false), FwCfg(false));
    WorldOne(Alloc(Command, true));
    WorldOne(Alloc(Command, false));
    WorldOne(x);
    WorldOne(FwCfg(false));
  }

  // ---------------------------------------------------------------- a run in which all goes well

  function HciCommands(actions: seq<GoodAction>): (r: seq<HciCommand>)
    requires forall a :: a in actions ==> a.kind == SEND_COMMAND
    ensures |r| == |actions|
  {
    if actions == [] then []
    else [HciCommand(actions[0].Opcode(), actions[0].Packet())] + HciCommands(actions[1..])
  }

  /** The commands of a well-formed script whose dropped commands have their wait events are those that are kept. */
  lemma {:induction false} ScriptIsCommands(m: Memory, c: Cursor, actions: seq<GoodAction>)
    requires Placed(m, c, actions) && DropsAwaited(actions, Tail(m, c))
    ensures Script(m, c) == HciCommands(Commands(actions))
    decreases |Commands(actions)|
  {
    var tail := Tail(m, c);
    NextCommandIsFirstOfCommands(actions, tail);
    ScanRefinesNextCommand(m, c, actions);
    ScanKeepsEnd(m, c);
    var d := Scan(m, c).value;
    match NextCommand(actions, tail)
    case Done => KindAhead(m, d, []);
    case Found(command, rest) =>
      AheadOfRest(m, d, command, rest, c);
      CommandAhead(m, d, [command] + rest);
      ScriptIsCommands(m, Past(m, d), rest);
      assert Commands(actions)[1..] == Commands(rest);
  }

  function Requests(commands: seq<HciCommand>): seq<Effect> {
    if commands == [] then []
    else Request(commands[0].opcode, commands[0].packet, true) + Requests(commands[1..])
  }

  lemma {:induction false} AllAreSent(fw: nat, commands: seq<HciCommand>, inputs: seq<Input>)
    requires |inputs| == |commands| + 1 && forall i :: i in inputs ==> AllWell(i)
    ensures Send(fw, commands, inputs) == Requests(commands) + ([FreeFw(fw)] + (CODEC_XMITS + [FwCfg(true)]))
    decreases |inputs|
  {
    var end := [FreeFw(fw)] + (CODEC_XMITS + [FwCfg(true)]);
    assert AllWell(inputs[0]) && Finish(fw, inputs[0].answers) == end;
    if commands == [] {
      assert [] + end == end;
    } else {
      assert AllWell(inputs[1]);
      AllAreSent(fw, commands[1..], inputs[1..]);
      Assoc(Request(commands[0].opcode, commands[0].packet, true), Requests(commands[1..]), end);
    }
  }

  /** From the answer to Read Local Version on. */
  function ScriptInFull(version: Version, p: nat, commands: seq<HciCommand>): seq<Effect> {
    [OpenScript(version)] + ([MallocFw(p)]
    + (Requests(commands) + ([FreeFw(p)] + (CODEC_XMITS + [FwCfg(true)]))))
  }

  /** A whole run: the speed of the host is set when the controller has taken the new one, and of all scripts the one
      is opened that the version word in the controller's answer names. */
  function RunInFull(held: seq<byte>, blank: bool, addr: seq<byte>, script: seq<Effect>): seq<Effect> {
    [Reset()] + ([Baud(held)] + ([HostBaud(UART_TARGET_BAUD_RATE)] + ([ReadAddr()]
    + ((if blank then [WriteAddr(addr)] else []) + ([ReadVersion()] + script)))))
  }

  lemma LoadInFull(fw: nat, inputs: seq<Input>, actions: seq<GoodAction>)
    requires inputs != [] && forall i :: i in inputs ==> AllWell(i)
    requires ScriptIn(inputs[0].answers.load, actions) && AwaitedIn(inputs[0].answers.load, actions)
    requires |inputs| == |Commands(actions)| + 1
    ensures FromVersion(fw, inputs)
         == ScriptInFull(VersionAt(inputs[0].ev), inputs[0].answers.load.p, HciCommands(Commands(actions)))
  {
    var load := inputs[0].answers.load;
    assert AllWell(inputs[0]);
    ScriptIsCommands(load.memory, ScriptStart(load), actions);
    AllAreSent(load.p, HciCommands(Commands(actions)), inputs);
  }

  lemma AddressInFull(addr: seq<byte>, fw: nat, inputs: seq<Input>, script: seq<Effect>)
    requires |inputs| > 1 && (Blank(inputs[0]) ==> |inputs| > 2) && AllWell(inputs[0]) && AllWell(inputs[1])
    requires FromVersion(fw, inputs[if Blank(inputs[0]) then 2 else 1..]) == script
    ensures FromReadAddr(addr, fw, inputs)
         == (if Blank(inputs[0]) then [WriteAddr(addr)] else []) + ([ReadVersion()] + script)
  {
    assert inputs[1..][1..] == inputs[2..];
    assert [] + ([ReadVersion()] + script) == [ReadVersion()] + script;
  }

  /** A run in which all goes well, in full. */
  lemma WholeRunInFull(c: Cfg, inputs: seq<Input>, actions: seq<GoodAction>)
    requires c.cbacks && |inputs| > 2 && |inputs| == LoadIndex(inputs) + 1 + |Commands(actions)|
    requires forall i :: i in inputs ==> AllWell(i)
    requires ScriptIn(inputs[LoadIndex(inputs)].answers.load, actions)
    requires AwaitedIn(inputs[LoadIndex(inputs)].answers.load, actions)
    ensures inputs[0].answers.buffer.Some? && WholeRun(c, inputs).Returns?
    ensures var i := inputs[LoadIndex(inputs)];
            World(WholeRun(c, inputs).effects) ==
            RunInFull(inputs[0].answers.buffer.value, Blank(inputs[2]), c.addr,
                      ScriptInFull(VersionAt(i.ev), i.answers.load.p, HciCommands(Commands(actions))))
  {
    var n := LoadIndex(inputs);
    RunComesBack(c, inputs, actions);
    RunsCarryOutTheProgram(c, inputs);
    LoadInFull(c.fwData, inputs[n..], actions);
    ProgramInFull(c.addr, c.fwData, inputs, FromVersion(c.fwData, inputs[n..]));
  }

  lemma RunComesBack(c: Cfg, inputs: seq<Input>, actions: seq<GoodAction>)
    requires c.cbacks && |inputs| > 2 && |inputs| == LoadIndex(inputs) + 1 + |Commands(actions)|
    requires forall i :: i in inputs ==> AllWell(i)
    requires ScriptIn(inputs[LoadIndex(inputs)].answers.load, actions)
    requires AwaitedIn(inputs[LoadIndex(inputs)].answers.load, actions)
    ensures WholeRun(c, inputs).Returns?
  {
    WholeRunTrace(c, inputs, actions);
  }

  lemma ProgramInFull(addr: seq<byte>, fw: nat, inputs: seq<Input>, script: seq<Effect>)
    requires |inputs| > 3 && |inputs| > LoadIndex(inputs) && forall i :: i in inputs ==> AllWell(i)
    requires FromVersion(fw, inputs[LoadIndex(inputs)..]) == script
    ensures inputs[0].answers.buffer.Some?
    ensures [Reset()] + FromReset(addr, fw, inputs)
         == RunInFull(inputs[0].answers.buffer.value, Blank(inputs[2]), addr, script)
  {
    assert AllWell(inputs[0]) && AllWell(inputs[1]) && AllWell(inputs[2]) && AllWell(inputs[3]);
    assert inputs[2..][LoadIndex(inputs) - 2..] == inputs[LoadIndex(inputs)..];
    assert inputs[1..][1..] == inputs[2..];
    AddressInFull(addr, fw, inputs[2..], script);
  }

  // ---------------------------------------------------------------- a command of the script that is refused

  /** The download stops at the first command that is refused, and success is reported all the same. */
  lemma {:induction false} RefusedCommandEndsInSuccess(fw: nat, commands: seq<HciCommand>, inputs: seq<Input>, k: nat)
    requires k < |commands| && k < |inputs| && !inputs[k].answers.command
    requires (forall j :: 0 <= j < k ==> inputs[j].answers.command) && (forall j :: 0 < j <= k ==> Good(inputs[j]))
    ensures Send(fw, commands, inputs)
         == Requests(commands[..k])
            + (Request(commands[k].opcode, commands[k].packet, false) + Finish(fw, inputs[k].answers))
    decreases k
  {
    var end := Request(commands[k].opcode, commands[k].packet, false) + Finish(fw, inputs[k].answers);
    if k == 0 {
      assert [] + end == end;
    } else {
      var rest := inputs[1..];
      assert Good(inputs[1]) && forall j :: 0 <= j < |rest| ==> rest[j] == inputs[j + 1];
      RefusedCommandEndsInSuccess(fw, commands[1..], inputs[1..], k - 1);
      assert commands[..k][1..] == commands[1..][..k - 1];
      Assoc(Request(commands[0].opcode, commands[0].packet, true), Requests(commands[1..][..k - 1]), end);
    }
  }

  // ---------------------------------------------------------------- complete packets

  /** An HCI command: its opcode, the length of its parameters, and as many bytes. */
  predicate Complete(e: Effect) {
    e.Xmit? ==> |e.packet| >= 3 && e.packet[..2] == U16(e.opcode) && |e.packet| == 3 + (e.packet[2] as int)
  }

  predicate AllComplete(es: seq<Effect>) {
    forall e :: e in es ==> Complete(e)
  }

  lemma {:induction false} ScriptIsComplete(m: Memory, c: Cursor)
    ensures forall h :: h in Script(m, c) ==> Complete(Request(h.opcode, h.packet, true)[0])
    decreases if c.pos < |m| then |m| - c.pos else 0
  {
    match Scan(m, c)
    case None =>
    case Some(d) =>
      if KindAt(m, d.pos) == SEND_COMMAND {
        ScanKeepsEnd(m, c);
        CommandIsThere(m, d.pos);
        PacketIsComplete(m, d.pos);
        ScriptIsComplete(m, Past(m, d));
      }
  }

  lemma PacketIsComplete(m: Memory, p: int)
    ensures Complete(Xmit(OpcodeAt(m, p), PacketAt(m, p), Command, true))
  {
    var packet := PacketAt(m, p);
    assert packet[0] == At(m, p + 5 + 0) && packet[1] == At(m, p + 5 + 1) && packet[2] == At(m, p + 5 + 2);
    assert packet[..2] == [packet[0], packet[1]];
  }

  lemma RequestsAreComplete()
    ensures forall held, accepted :: Complete(Xmit(HCI_VSC_UPDATE_BAUDRATE, BaudPacket(held), Command, accepted))
    ensures forall addr, accepted :: Complete(Xmit(HCI_VSC_WRITE_BD_ADDR, WriteAddrPacket(addr), Command, accepted))
    ensures forall opcode, accepted :: Complete(Xmit(opcode, Parameterless(opcode), Command, accepted))
    ensures forall accepted :: Complete(Xmit(HCI_VS_WRITE_CODEC_CONFIG, CODEC_PACKET, Codec, accepted))
    ensures forall accepted :: Complete(Xmit(HCI_VS_WRITE_CODEC_CONFIG_ENHANCED, ENHANCED_PACKET, Enhanced, accepted))
  {
    forall opcode: u16 ensures Parameterless(opcode)[..2] == U16(opcode) {}
    forall held: seq<byte> ensures BaudPacket(held)[..2] == U16(HCI_VSC_UPDATE_BAUDRATE) {}
    forall addr: seq<byte> ensures WriteAddrPacket(addr)[..2] == U16(HCI_VSC_WRITE_BD_ADDR) {}
    assert CODEC_PACKET[..2] == U16(HCI_VS_WRITE_CODEC_CONFIG);
    assert ENHANCED_PACKET[..2] == U16(HCI_VS_WRITE_CODEC_CONFIG_ENHANCED);
  }

  lemma {:induction false} SendIsComplete(fw: nat, commands: seq<HciCommand>, inputs: seq<Input>)
    requires inputs != [] && forall h :: h in commands ==> Complete(Request(h.opcode, h.packet, true)[0])
    ensures AllComplete(Send(fw, commands, inputs))
    decreases |inputs|
  {
    RequestsAreComplete();
    assert AllComplete(Finish(fw, inputs[0].answers));
    if commands == [] {
    } else if |inputs| > 1 {
      SendIsComplete(fw, commands[1..], inputs[1..]);
    }
  }

  lemma LoadIsComplete(fw: nat, inputs: seq<Input>)
    ensures AllComplete(FromVersion(fw, inputs))
  {
    if inputs != [] && Good(inputs[0]) && inputs[0].answers.load.Loaded? {
      var load := inputs[0].answers.load;
      ScriptIsComplete(load.memory, ScriptStart(load));
      SendIsComplete(load.p, Script(load.memory, ScriptStart(load)), inputs);
    }
  }

  lemma VersionIsComplete(fw: nat, inputs: seq<Input>)
    requires inputs != []
    ensures AllComplete(AskVersion(fw, inputs))
  {
    RequestsAreComplete();
    LoadIsComplete(fw, inputs[1..]);
  }

  lemma AddressIsComplete(addr: seq<byte>, fw: nat, inputs: seq<Input>)
    requires inputs != []
    ensures AllComplete(Address(addr, fw, inputs))
  {
    RequestsAreComplete();
    VersionIsComplete(fw, inputs);
    if |inputs| > 1 {
      VersionIsComplete(fw, inputs[1..]);
    }
  }

  lemma ReadAddrIsComplete(addr: seq<byte>, fw: nat, inputs: seq<Input>)
    ensures AllComplete(FromReadAddr(addr, fw, inputs))
  {
    if inputs != [] {
      AddressIsComplete(addr, fw, inputs);
    }
  }

  lemma AskAddressIsComplete(addr: seq<byte>, fw: nat, inputs: seq<Input>)
    requires inputs != []
    ensures AllComplete(AskAddress(addr, fw, inputs))
  {
    RequestsAreComplete();
    AddressIsComplete(addr, fw, inputs);
    ReadAddrIsComplete(addr, fw, inputs[1..]);
  }

  lemma BaudIsComplete(addr: seq<byte>, fw: nat, inputs: seq<Input>)
    ensures AllComplete(FromBaud(addr, fw, inputs))
  {
    if inputs != [] {
      AskAddressIsComplete(addr, fw, inputs);
    }
  }

  /** Over every run, whatever the script and the answers are, what is transmitted are complete HCI commands. */
  lemma TransmissionsAreComplete(c: Cfg, inputs: seq<Input>)
    requires c.cbacks && WholeRun(c, inputs).Returns?
    ensures AllComplete(World(WholeRun(c, inputs).effects))
  {
    RunsCarryOutTheProgram(c, inputs);
    RequestsAreComplete();
    if inputs != [] {
      BaudIsComplete(c.addr, c.fwData, inputs[1..]);
    }
  }
}
