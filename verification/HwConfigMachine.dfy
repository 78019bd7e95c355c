/** The firmware-configuration code itself: the control block, updated in place by every callback. */
module HwConfigMachine {
  import opened Bytes
  import opened BtsScript
  import opened HwConfig

  /** A buffer for an HCI command, with the pointer that writes it. */
  class CmdBuffer {
    const data: array<byte>
    var p: nat
    var len: nat

    predicate Valid()
      reads this
    {
      data.Length == HCI_CMD_MAX_LEN && p <= data.Length && len <= data.Length
    }

    /** The packet handed to the transport. */
    function Packet(): seq<byte>
      requires Valid()
      reads this, data
    {
      data[..len]
    }

    /** What has been written so far. */
    function Written(): seq<byte>
      requires Valid()
      reads this, data
    {
      data[..p]
    }

    constructor (held: seq<byte>)
      ensures Valid() && fresh(this) && fresh(data)
      ensures p == 0 && len == 0
      ensures forall i :: 0 <= i < HCI_CMD_MAX_LEN ==> data[i] == At(held, i)
    {
      data := new byte[HCI_CMD_MAX_LEN](i => At(held, i));
      p, len := 0, 0;
    }

    method PutU8(b: byte)
      requires Valid() && p < data.Length
      modifies this`p, data
      ensures Valid() && p == old(p) + 1
      ensures Written() == old(Written()) + [b]
      ensures forall i :: p <= i < data.Length ==> data[i] == old(data[i])
    {
      data[p] := b;
      p := p + 1;
    }

    method PutU16(w: u16)
      requires Valid() && p + 2 <= data.Length
      modifies this`p, data
      ensures Valid() && p == old(p) + 2
      ensures Written() == old(Written()) + U16(w)
      ensures forall i :: p <= i < data.Length ==> data[i] == old(data[i])
    {
      PutU8(w % 0x100);
      PutU8(w / 0x100);
      assert U16(w) == [w % 0x100] + [w / 0x100];
    }

    method PutU32(w: u32)
      requires Valid() && p + 4 <= data.Length
      modifies this`p, data
      ensures Valid() && p == old(p) + 4
      ensures Written() == old(Written()) + U32(w)
      ensures forall i :: p <= i < data.Length ==> data[i] == old(data[i])
    {
      PutU8(w % 0x100);
      PutU8(w / 0x100 % 0x100);
      PutU8(w / 0x100 / 0x100 % 0x100);
      PutU8(w / 0x100 / 0x100 / 0x100);
    }

    /** memcpy of n bytes at q. */
    method PutBytes(m: Memory, q: int, n: nat)
      requires Valid() && p + n <= data.Length
      modifies this`p, data
      ensures Valid() && p == old(p) + n
      ensures Written() == old(Written()) + Read(m, q, n)
    {
      ghost var bytes := Read(m, q, n);
      var i := 0;
      while i < n
        invariant 0 <= i <= n && Valid() && p == old(p) + i
        invariant Written() == old(Written()) + bytes[..i]
      {
        assert At(m, q + i) == bytes[i];
        PutU8(At(m, q + i));
        i := i + 1;
      }
      assert bytes[..n] == bytes;
    }

    method Rewind()
      requires Valid()
      modifies this`p
      ensures Valid() && p == 0
    {
      p := 0;
    }

    method SetLen(n: nat)
      requires Valid() && n <= data.Length
      modifies this`len
      ensures Valid() && len == n
    {
      len := n;
    }

    /** A command without parameters. */
    method PutParameterless(opcode: u16)
      requires Valid()
      modifies this, data
      ensures Valid() && Packet() == Parameterless(opcode)
    {
      Rewind();
      PutU16(opcode);
      PutU8(0);
      SetLen(3);
    }

    /** The command of the script at q: its opcode, its length, its parameters. */
    method PutCommandAt(m: Memory, q: int)
      requires Valid()
      modifies this, data
      ensures Valid() && Packet() == PacketAt(m, q)
    {
      PutPreamble(OpcodeAt(m, q), ParamLenAt(m, q));
      PutBytes(m, q + 8, ParamLenAt(m, q));
      PacketAtParts(m, q);
      SetLen(3 + ParamLenAt(m, q));
    }

    /** The baud-rate command: four of its six parameter bytes are written. */
    method PutBaudRate(ghost held: seq<byte>)
      requires Valid() && data[7] == At(held, 7) && data[8] == At(held, 8)
      modifies this, data
      ensures Valid() && Packet() == BaudPacket(held)
    {
      Rewind();
      PutU16(HCI_VSC_UPDATE_BAUDRATE);
      PutU8(6);
      PutU32(UART_TARGET_BAUD_RATE);
      SetLen(3 + 6);
      assert data[..9] == data[..7] + [data[7], data[8]];
    }

    method PutAddr(addr: seq<byte>)
      requires Valid()
      modifies this, data
      ensures Valid() && Packet() == WriteAddrPacket(addr)
    {
      PutPreamble(HCI_VSC_WRITE_BD_ADDR, BD_ADDR_LEN);
      PutThree(At(addr, 5), At(addr, 4), At(addr, 3));
      PutThree(At(addr, 2), At(addr, 1), At(addr, 0));
      SetLen(3 + BD_ADDR_LEN);
    }

    method PutThree(a: byte, b: byte, c: byte)
      requires Valid() && p + 3 <= data.Length
      modifies this`p, data
      ensures Valid() && p == old(p) + 3
      ensures Written() == old(Written()) + [a, b, c]
    {
      PutU8(a);
      PutU8(b);
      PutU8(c);
    }

    method PutPreamble(opcode: u16, paramLen: byte)
      requires Valid()
      modifies this, data
      ensures Valid() && p == 3 && Written() == U16(opcode) + [paramLen]
    {
      Rewind();
      PutU16(opcode);
      PutU8(paramLen);
    }

    /** Rate and role of the PCM interface. */
    method PutClock()
      requires Valid() && p + 7 <= data.Length
      modifies this`p, data
      ensures Valid() && p == old(p) + 7
      ensures Written() == old(Written()) + (U16(2048) + [1] + U32(16000))
    {
      PutU16(2048);
      PutU8(0x01);
      PutU32(16000);
    }

    method PutFrameSync()
      requires Valid() && p + 5 <= data.Length
      modifies this`p, data
      ensures Valid() && p == old(p) + 5
      ensures Written() == old(Written()) + (U16(1) + ([0] + ([0] + [0])))
    {
      PutU16(0x0001);
      PutU8(0x00);
      PutU8(0x00);
      PutU8(0x00);
    }

    /** Size, offset and edge of one direction of a channel. */
    method PutSlot(offset: u16)
      requires Valid() && p + 5 <= data.Length
      modifies this`p, data
      ensures Valid() && p == old(p) + 5
      ensures Written() == old(Written()) + (U16(0x0010) + U16(offset) + [1])
    {
      PutU16(0x0010);
      PutU16(offset);
      PutU8(0x01);
    }

    method PutCodecChannel(offset: u16)
      requires Valid() && p + 11 <= data.Length
      modifies this`p, data
      ensures Valid() && p == old(p) + 11
      ensures Written() == old(Written()) + CodecChannel(offset)
    {
      PutSlot(offset);
      PutSlot(offset);
      PutU8(0x00);
    }

    method PutCodecConfig()
      requires Valid()
      modifies this, data
      ensures Valid() && Packet() == CODEC_PACKET
    {
      PutPreamble(HCI_VS_WRITE_CODEC_CONFIG, 34);
      PutClock();
      PutFrameSync();
      PutCodecChannel(0x0001);
      PutCodecChannel(0x0011);
      SetLen(3 + 34);
    }

    method PutEnhancedClock()
      requires Valid() && p + 6 <= data.Length
      modifies this`p, data
      ensures Valid() && p == old(p) + 6
      ensures Written() == old(Written()) + ([0] + U16(0) + U16(0) + [0])
    {
      PutU8(0x00);
      PutU16(0x0000);
      PutU16(0x0000);
      PutU8(0x00);
    }

    method PutOrder()
      requires Valid() && p + 4 <= data.Length
      modifies this`p, data
      ensures Valid() && p == old(p) + 4
      ensures Written() == old(Written()) + [4, 4, 1, 0]
    {
      PutU8(0x04);
      PutU8(0x04);
      PutU8(0x01);
      PutU8(0x00);
    }

    method PutEnhancedChannel()
      requires Valid() && p + 10 <= data.Length
      modifies this`p, data
      ensures Valid() && p == old(p) + 10
      ensures Written() == old(Written()) + ENHANCED_CHANNEL
    {
      PutOrder();
      PutU32(0x00000000);
      PutU8(0x00);
      PutU8(0x00);
    }

    method PutEnhancedConfig()
      requires Valid()
      modifies this, data
      ensures Valid() && Packet() == ENHANCED_PACKET
    {
      PutPreamble(HCI_VS_WRITE_CODEC_CONFIG_ENHANCED, 26);
      PutEnhancedClock();
      PutEnhancedChannel();
      PutEnhancedChannel();
      SetLen(3 + 26);
    }
  }

  /** hw_cfg_cb and the globals around it. The log holds every call made to the stack and to the allocator. */
  class Machine {
    const addr: seq<byte>
    var cbacks: bool
    var state: State
    var fwData: nat
    var fw: Memory
    var curAction: int
    var len: int
    var log: seq<Effect>

    function View(): Cfg
      reads this
    {
      Cfg(cbacks, addr, state, fwData, fw, Cursor(curAction, len))
    }

    /** The machine has done what the case k says. */
    predicate Did(before: seq<Effect>, k: Case, proceeding: bool)
      reads this
    {
      k.Ran? && View() == k.cfg && log == before + k.effects && proceeding == k.proceeding
    }

    constructor (addr: seq<byte>, cbacks: bool)
      ensures View() == Cfg(cbacks, addr, Idle, 0, [], Cursor(0, 0)) && log == []
    {
      this.addr := addr;
      this.cbacks := cbacks;
      state, fwData, fw, curAction, len, log := Idle, 0, [], 0, 0, [];
    }

    method SkipHciCommand()
      modifies `curAction, `len
      ensures Cursor(curAction, len) == Skip(fw, old(Cursor(curAction, len)))
    {
      var step := ACTION_HEAD_SIZE + SizeAt(fw, curAction);
      if KindAt(fw, curAction + step) == WAIT_EVENT {
        curAction := curAction + step;
        len := len - step;
      }
    }

    method DownloadFirmwareHelper() returns (ok: bool)
      modifies `curAction, `len
      ensures Probe(ok, Cursor(curAction, len)) == Helper(fw, old(Cursor(curAction, len)))
    {
      while len > 0 && KindAt(fw, curAction) != SEND_COMMAND
        invariant Seek(fw, Cursor(curAction, len)) == Seek(fw, old(Cursor(curAction, len)))
        decreases len
      {
        var step := ACTION_HEAD_SIZE + SizeAt(fw, curAction);
        len := len - step;
        curAction := curAction + step;
      }
      ok := true;
      if KindAt(fw, curAction) == SEND_COMMAND {
        var opcode := OpcodeAt(fw, curAction);
        if opcode == HCI_VSC_UPDATE_BAUDRATE || opcode == HCI_VS_SLP_CFG {
          SkipHciCommand();
          ok := false;
        }
      }
    }

    method Transmit(opcode: u16, buf: CmdBuffer, owner: Buffer, accepted: bool) returns (status: bool)
      requires buf.Valid()
      modifies `log
      ensures log == old(log) + [Xmit(opcode, buf.Packet(), owner, accepted)] && status == accepted
    {
      log := log + [Xmit(opcode, buf.Packet(), owner, accepted)];
      status := accepted;
    }

    /** Calls the helper until it succeeds: exactly when the script lets it succeed does this come back. */
    method SeekCommand()
      requires Scan(fw, Cursor(curAction, len)).Some?
      modifies `curAction, `len
      ensures Some(Cursor(curAction, len)) == Scan(fw, old(Cursor(curAction, len)))
    {
      ghost var goal := Scan(fw, Cursor(curAction, len));
      ScanUnfolds(fw, Cursor(curAction, len));
      var ok := DownloadFirmwareHelper();
      while !ok
        invariant if ok then Some(Cursor(curAction, len)) == goal else Scan(fw, Cursor(curAction, len)) == goal
        decreases !ok, Fuel(fw, Cursor(curAction, len))
      {
        ScanUnfolds(fw, Cursor(curAction, len));
        ok := DownloadFirmwareHelper();
      }
    }

    /** Sends the next command of the script that is not dropped, if there is one. */
    method DownloadFirmware(buf: CmdBuffer, a: Answers) returns (status: bool)
      requires buf.Valid() && Scan(fw, Cursor(curAction, len)).Some?
      modifies `curAction, `len, `log, buf, buf.data
      ensures buf.Valid()
      ensures var d := Scan(fw, old(Cursor(curAction, len))).value;
              if KindAt(fw, d.pos) == SEND_COMMAND then
                && Cursor(curAction, len) == Past(fw, d)
                && log == old(log) + [Xmit(OpcodeAt(fw, d.pos), PacketAt(fw, d.pos), Command, a.command)]
                && status == a.command
              else Cursor(curAction, len) == d && log == old(log) && !status
    {
      status := false;
      SeekCommand();
      if KindAt(fw, curAction) == SEND_COMMAND {
        buf.PutCommandAt(fw, curAction);
        var opcode := OpcodeAt(fw, curAction);
        var step := ACTION_HEAD_SIZE + SizeAt(fw, curAction);
        len := len - step;
        curAction := curAction + step;
        status := Transmit(opcode, buf, Command, a.command);
      }
    }

    method ReadLocalVersion(buf: CmdBuffer, a: Answers) returns (status: bool)
      requires buf.Valid()
      modifies `state, `log, buf, buf.data
      ensures buf.Valid() && Did(old(log), SetBdAddrCase(old(View()), a), status)
    {
      buf.PutParameterless(HCI_READ_LOCAL_VERSION);
      state := ReadLocalVer;
      status := Transmit(HCI_READ_LOCAL_VERSION, buf, Command, a.readVersion);
    }

    method SetBdaddr(buf: CmdBuffer, a: Answers) returns (status: bool)
      requires buf.Valid()
      modifies `state, `log, buf, buf.data
      ensures buf.Valid() && View() == old(View()).(state := SetBdAddr) && status == a.writeAddr
      ensures log == old(log) + [Xmit(HCI_VSC_WRITE_BD_ADDR, WriteAddrPacket(addr), Command, a.writeAddr)]
    {
      buf.PutAddr(addr);
      state := SetBdAddr;
      status := Transmit(HCI_VSC_WRITE_BD_ADDR, buf, Command, a.writeAddr);
    }

    method ReadBdaddr(buf: CmdBuffer, a: Answers) returns (status: bool)
      requires buf.Valid()
      modifies `state, `log, buf, buf.data
      ensures buf.Valid() && View() == old(View()).(state := ReadBdAddr) && status == a.readAddr
      ensures log == old(log)
                     + [Xmit(HCI_READ_LOCAL_BDADDR, Parameterless(HCI_READ_LOCAL_BDADDR), Command, a.readAddr)]
    {
      buf.PutParameterless(HCI_READ_LOCAL_BDADDR);
      state := ReadBdAddr;
      status := Transmit(HCI_READ_LOCAL_BDADDR, buf, Command, a.readAddr);
    }

    /** Loads the script and puts the cursor behind its header; what the file system and malloc do is given. */
    method LoadBts(load: Load) returns (status: bool)
      modifies `state, `fwData, `fw, `curAction, `len, `log
      ensures status == load.Loaded?
      ensures match load
              case NoFile => View() == old(View()) && log == old(log)
              case NoMemory(size) =>
                && View() == old(View()).(cur := old(View()).cur.(len := size), fwData := 0)
                && log == old(log) + [MallocFw(0)]
              case ShortRead(p, size) =>
                && View() == old(View()).(cur := old(View()).cur.(len := size), fwData := p)
                && log == old(log) + [MallocFw(p)]
              case Loaded(p, m, size) =>
                View() == Installed(old(View()), p, m, size) && log == old(log) + [MallocFw(p)]
    {
      status := false;
      match load
      case NoFile =>
      case NoMemory(size) =>
        len := size;
        fwData := 0;
        log := log + [MallocFw(0)];
      case ShortRead(p, size) =>
        len := size;
        fwData := p;
        log := log + [MallocFw(p)];
      case Loaded(p, m, size) =>
        len := size;
        fwData := p;
        fw := m;
        log := log + [MallocFw(p)];
        curAction := SCRIPT_HEADER_SIZE;
        len := len - SCRIPT_HEADER_SIZE;
        state := Download;
        status := true;
    }

    method WriteCodecConfiguration(s: Send)
      modifies `log
      ensures log == old(log) + WriteCodec(Codec, HCI_VS_WRITE_CODEC_CONFIG, CODEC_PACKET, s)
    {
      log := log + [Alloc(Codec, s.Sent?)];
      match s
      case NoBuffer => log := log + [ScoCfg(false)];
      case Sent(accepted) =>
        var buf := new CmdBuffer([]);
        buf.PutCodecConfig();
        var _ := Transmit(HCI_VS_WRITE_CODEC_CONFIG, buf, Codec, accepted);
    }

    method WriteCodecConfigurationEnhanced(s: Send)
      modifies `log
      ensures log == old(log) + WriteCodec(Enhanced, HCI_VS_WRITE_CODEC_CONFIG_ENHANCED, ENHANCED_PACKET, s)
    {
      log := log + [Alloc(Enhanced, s.Sent?)];
      match s
      case NoBuffer => log := log + [ScoCfg(false)];
      case Sent(accepted) =>
        var buf := new CmdBuffer([]);
        buf.PutEnhancedConfig();
        var _ := Transmit(HCI_VS_WRITE_CODEC_CONFIG_ENHANCED, buf, Enhanced, accepted);
    }

    /** The last case of the switch. */
    method EndDownload(a: Answers) returns (proceeding: bool)
      modifies `state, `log
      ensures Did(old(log), DownloadEndCase(old(View()), a), proceeding)
    {
      log := log + [Dealloc(Command)];
      log := log + [FreeFw(fwData)];
      ghost var freed := log;
      WriteCodecConfiguration(a.codec);
      WriteCodecConfigurationEnhanced(a.enhanced);
      log := log + [FwCfg(true)];
      state := Idle;
      proceeding := true;
      ghost var codec := WriteCodec(Codec, HCI_VS_WRITE_CODEC_CONFIG, CODEC_PACKET, a.codec);
      ghost var enhanced := WriteCodec(Enhanced, HCI_VS_WRITE_CODEC_CONFIG_ENHANCED, ENHANCED_PACKET, a.enhanced);
      assert log == freed + codec + enhanced + [FwCfg(true)];
      assert freed + codec + enhanced + [FwCfg(true)] == freed + (codec + (enhanced + [FwCfg(true)]));
    }

    /** The download case, with the fall-through to the last one. */
    method SwitchFromDownload(buf: CmdBuffer, a: Answers) returns (proceeding: bool)
      requires buf.Valid() && DownloadCase(View(), a).Ran?
      modifies this, buf, buf.data
      ensures Did(old(log), DownloadCase(old(View()), a), proceeding)
    {
      ghost var c := View();
      proceeding := DownloadFirmware(buf, a);
      if proceeding {
        return;
      }
      ghost var sent := log[|old(log)|..];
      ghost var k := DownloadEndCase(View(), a);
      assert log == old(log) + sent;
      proceeding := EndDownload(a);
      assert old(log) + sent + k.effects == old(log) + (sent + k.effects);
    }

    /** The case of the version answer, with its fall-throughs. */
    method SwitchFromVersion(ev: Memory, buf: CmdBuffer, a: Answers) returns (proceeding: bool)
      requires buf.Valid() && ReadLocalVerCase(View(), ev, a).Ran?
      modifies this, buf, buf.data
      ensures Did(old(log), ReadLocalVerCase(old(View()), ev, a), proceeding)
    {
      log := log + [OpenScript(VersionAt(ev))];
      proceeding := LoadBts(a.load);
      if proceeding {
        ghost var head := [OpenScript(VersionAt(ev))] + [MallocFw(a.load.p)];
        proceeding := SwitchAfterLoad(head, buf, a);
      }
    }

    method SwitchAfterLoad(ghost head: seq<Effect>, buf: CmdBuffer, a: Answers) returns (proceeding: bool)
      requires buf.Valid() && DownloadCase(View(), a).Ran?
      modifies this, buf, buf.data
      ensures forall before :: old(log) == before + head ==>
                Did(before, Then(head, DownloadCase(old(View()), a)), proceeding)
    {
      ghost var k := DownloadCase(View(), a);
      proceeding := SwitchFromDownload(buf, a);
      forall before | old(log) == before + head ensures log == before + (head + k.effects) {
        assert before + head + k.effects == before + (head + k.effects);
      }
    }

    /** The case of the address answer, with its fall-throughs. */
    method SwitchFromAddress(ev: Memory, buf: CmdBuffer, a: Answers) returns (proceeding: bool)
      requires buf.Valid()
      modifies this, buf, buf.data
      ensures buf.Valid() && Did(old(log), ReadBdAddrCase(old(View()), ev, a), proceeding)
    {
      ghost var sent := [];
      if Read(ev, 6, BD_ADDR_LEN) == NULL_BDADDR {
        proceeding := SetBdaddr(buf, a);
        if proceeding {
          return;
        }
        sent := [Xmit(HCI_VSC_WRITE_BD_ADDR, WriteAddrPacket(addr), Command, a.writeAddr)];
      }
      assert log == old(log) + sent;
      ghost var k := SetBdAddrCase(View(), a);
      proceeding := ReadLocalVersion(buf, a);
      assert old(log) + sent + k.effects == old(log) + (sent + k.effects);
    }

    /** The case of the baud-rate answer, with its fall-throughs. */
    method SwitchFromUart(ev: Memory, buf: CmdBuffer, a: Answers) returns (proceeding: bool)
      requires buf.Valid()
      modifies this, buf, buf.data
      ensures buf.Valid() && Did(old(log), SetUartBaudCase(old(View()), ev, a), proceeding)
    {
      log := log + [HostBaud(UART_TARGET_BAUD_RATE)];
      proceeding := ReadBdaddr(buf, a);
      ghost var sent := [HostBaud(UART_TARGET_BAUD_RATE)]
        + [Xmit(HCI_READ_LOCAL_BDADDR, Parameterless(HCI_READ_LOCAL_BDADDR), Command, a.readAddr)];
      assert log == old(log) + sent;
      if proceeding {
        return;
      }
      ghost var k := ReadBdAddrCase(View(), ev, a);
      proceeding := SwitchFromAddress(ev, buf, a);
      assert old(log) + sent + k.effects == old(log) + (sent + k.effects);
    }

    method SwitchOnState(ev: Memory, ghost held: seq<byte>, buf: CmdBuffer, a: Answers) returns (proceeding: bool)
      requires buf.Valid() && Switch(View(), ev, held, a).Ran?
      requires buf.data[7] == At(held, 7) && buf.data[8] == At(held, 8)
      modifies this, buf, buf.data
      ensures Did(old(log), Switch(old(View()), ev, held, a), proceeding)
    {
      match state
      case Idle => proceeding := false;
      case Start =>
        buf.PutBaudRate(held);
        state := SetUartBaud;
        proceeding := Transmit(HCI_VSC_UPDATE_BAUDRATE, buf, Command, a.baud);
      case SetUartBaud => proceeding := SwitchFromUart(ev, buf, a);
      case ReadBdAddr => proceeding := SwitchFromAddress(ev, buf, a);
      case SetBdAddr => proceeding := ReadLocalVersion(buf, a);
      case ReadLocalVer => proceeding := SwitchFromVersion(ev, buf, a);
      case Download => proceeding := SwitchFromDownload(buf, a);
      case DownloadEnd => proceeding := EndDownload(a);
    }

    method SwitchWithBuffer(ev: Memory, held: seq<byte>, a: Answers) returns (proceeding: bool)
      requires Switch(View(), ev, held, a).Ran?
      modifies this
      ensures Did(old(log), Switch(old(View()), ev, held, a), proceeding)
    {
      var buf := new CmdBuffer(held);
      proceeding := SwitchOnState(ev, held, buf, a);
    }

    /** Asks for a command buffer, unless the event reports a failure, and runs the switch with it. */
    method AllocAndSwitch(ev: Memory, a: Answers) returns (granted: bool, proceeding: bool)
      requires AllocCase(View(), ev, a).Ran?
      modifies this
      ensures granted == Granted(old(View()), ev, a)
      ensures Did(old(log), AllocCase(old(View()), ev, a), proceeding)
    {
      granted, proceeding := false, false;
      if At(ev, 5) == 0 && cbacks {
        log := log + [Alloc(Command, a.buffer.Some?)];
        if a.buffer.Some? {
          granted := true;
          ghost var before := old(log);
          ghost var k := Switch(old(View()), ev, a.buffer.value, a);
          proceeding := SwitchWithBuffer(ev, a.buffer.value, a);
          ThenAssociates(before, [Alloc(Command, true)], k);
        }
      }
    }

    /** The handler of every Command Complete event of the run. */
    method Cback(ev: Memory, a: Answers)
      requires Step(View(), ev, a).Returns?
      modifies this
      ensures View() == Step(old(View()), ev, a).cfg
      ensures log == old(log) + Step(old(View()), ev, a).effects
    {
      ghost var k := AllocCase(View(), ev, a);
      var granted, proceeding := AllocAndSwitch(ev, a);
      if cbacks {
        log := log + [Dealloc(Event)];
      }
      if !proceeding {
        Abort(granted);
      }
      ghost var closing := Closing(k.cfg, granted, proceeding);
      assert log == old(log) + k.effects + closing;
      assert old(log) + k.effects + closing == old(log) + (k.effects + closing);
    }

    method Abort(granted: bool)
      modifies `state, `log
      ensures View() == old(View()).(state := Idle)
      ensures log == old(log) + (if !cbacks then [] else
                (if granted then [Dealloc(Command)] else []) + ([FreeFw(fwData)] + [FwCfg(false)]))
    {
      if cbacks {
        if granted {
          log := log + [Dealloc(Command)];
        }
        log := log + [FreeFw(fwData)];
        log := log + [FwCfg(false)];
      }
      state := Idle;
    }

    method HwConfigStart(got: bool, accepted: bool)
      modifies this
      ensures View() == Begin(old(View()), got, accepted).0
      ensures log == old(log) + Begin(old(View()), got, accepted).1
    {
      state := Idle;
      if cbacks {
        log := log + [Alloc(Command, got)];
        if got {
          var buf := new CmdBuffer([]);
          buf.PutParameterless(HCI_RESET);
          state := Start;
          var _ := Transmit(HCI_RESET, buf, Command, accepted);
        } else {
          log := log + [FwCfg(false)];
        }
      }
    }
  }

  lemma ThenAssociates(before: seq<Effect>, first: seq<Effect>, k: Case)
    requires k.Ran?
    ensures before + first + k.effects == before + Then(first, k).effects
  {
    assert before + first + k.effects == before + (first + k.effects);
  }

  lemma PacketAtParts(m: Memory, p: int)
    ensures PacketAt(m, p) == U16(OpcodeAt(m, p)) + [ParamLenAt(m, p)] + Read(m, p + 8, ParamLenAt(m, p))
  {
    var n := ParamLenAt(m, p);
    var s := PacketAt(m, p);
    assert Holds(m, p + 5, s);
    var t := Read(m, p + 8, n);
    assert s[0] == At(m, p + 5 + 0) && s[1] == At(m, p + 5 + 1) && s[2] == At(m, p + 5 + 2);
    forall i | 0 <= i < n ensures s[3 + i] == t[i] {
      assert At(m, p + 5 + (3 + i)) == s[3 + i];
      assert At(m, p + 8 + i) == t[i];
    }
  }
}
