/** The firmware-configuration run: what each Command Complete event makes the host do. */
module HwConfig {
  import opened Bytes
  import opened BtsScript

  const HCI_RESET: u16 := 0x0C03
  const HCI_VSC_WRITE_BD_ADDR: u16 := 0xFC06
  const HCI_READ_LOCAL_BDADDR: u16 := 0x1009
  const HCI_READ_LOCAL_VERSION: u16 := 0x1001
  const HCI_VS_WRITE_CODEC_CONFIG: u16 := 0xFD06
  const HCI_VS_WRITE_CODEC_CONFIG_ENHANCED: u16 := 0xFD07

  const UART_TARGET_BAUD_RATE: u32 := 2900000
  const BD_ADDR_LEN: nat := 6
  const HCI_CMD_MAX_LEN: nat := 258

  const NULL_BDADDR: seq<byte> := [0, 0, 0, 0, 0, 0]

  datatype State =
    Idle | Start | SetUartBaud | SetBdAddr | ReadLocalVer | Download | DownloadEnd | ReadBdAddr

  /** The control block, with the globals it is used with: whether the stack's callbacks are installed, the host's
      own address, and the memory fw_data points to. A null pointer is 0. */
  datatype Cfg = Cfg(cbacks: bool, addr: seq<byte>, state: State, fwData: nat, fw: Memory, cur: Cursor)

  /** The buffers one callback deals with. */
  datatype Buffer = Command | Event | Codec | Enhanced

  datatype Effect =
    | Alloc(buffer: Buffer, got: bool)
    | Xmit(opcode: u16, packet: seq<byte>, owner: Buffer, accepted: bool)
    | Dealloc(freed: Buffer)
    | HostBaud(rate: u32)
    | OpenScript(version: Version)
    | MallocFw(p: nat)
    | FreeFw(q: nat)
    | FwCfg(success: bool)
    | ScoCfg(configured: bool)

  datatype Load =
    | NoFile
    | NoMemory(size: int)
    | ShortRead(p: nat, size: int)
    | Loaded(p: nat, memory: Memory, size: int)

  datatype Send = NoBuffer | Sent(accepted: bool)

  /** What the world answers during one callback: a buffer holding these bytes or none, whether each transmission
      is accepted, and how loading the script goes. */
  datatype Answers = Answers(
    buffer: Option<seq<byte>>,
    baud: bool, readAddr: bool, writeAddr: bool, readVersion: bool,
    load: Load, command: bool, codec: Send, enhanced: Send)

  // ---------------------------------------------------------------- packets

  function Parameterless(opcode: u16): seq<byte> { U16(opcode) + [0] }

  /** Six parameter bytes are announced and sent, four are written: two are what the buffer held before. */
  function BaudPacket(held: seq<byte>): seq<byte> {
    U16(HCI_VSC_UPDATE_BAUDRATE) + [6] + U32(UART_TARGET_BAUD_RATE) + [At(held, 7), At(held, 8)]
  }

  /** So two packets are the same exactly when the buffers held the same bytes there. */
  lemma BaudPacketShowsBuffer(a: seq<byte>, b: seq<byte>)
    ensures BaudPacket(a) == BaudPacket(b) <==> At(a, 7) == At(b, 7) && At(a, 8) == At(b, 8)
  {
    assert BaudPacket(a)[7] == At(a, 7) && BaudPacket(a)[8] == At(a, 8);
    assert BaudPacket(b)[7] == At(b, 7) && BaudPacket(b)[8] == At(b, 8);
  }

  function WriteAddrPacket(addr: seq<byte>): seq<byte> {
    U16(HCI_VSC_WRITE_BD_ADDR) + [BD_ADDR_LEN]
    + [At(addr, 5), At(addr, 4), At(addr, 3), At(addr, 2), At(addr, 1), At(addr, 0)]
  }

  lemma WordAt(a: seq<byte>, w: u32, b: seq<byte>)
    ensures Word32(a + U32(w) + b, |a|) == w
  {
    var p := a + U32(w) + b;
    forall i | 0 <= i < 4 ensures At(p, |a| + i) == U32(w)[i] {
      assert p[|a| + i] == U32(w)[i];
    }
    HoldsWord32(p, |a|, w);
  }

  /** The packets carry the baud rate and, its last byte first, the host's address. */
  lemma BaudPacketCarriesRate(held: seq<byte>)
    ensures Word32(BaudPacket(held), 3) == UART_TARGET_BAUD_RATE
  {
    WordAt(U16(HCI_VSC_UPDATE_BAUDRATE) + [6], UART_TARGET_BAUD_RATE, [At(held, 7), At(held, 8)]);
  }

  lemma WriteAddrPacketCarriesAddress(addr: seq<byte>)
    requires |addr| == BD_ADDR_LEN
    ensures var p := WriteAddrPacket(addr)[3..];
            |p| == BD_ADDR_LEN && forall k :: 0 <= k < |p| ==> p[k] == addr[BD_ADDR_LEN - 1 - k]
  {
    var p := WriteAddrPacket(addr)[3..];
    assert p == [addr[5], addr[4], addr[3], addr[2], addr[1], addr[0]];
  }

  /** Sixteen bits out and sixteen in, at the same offset, then a reserved byte. */
  function CodecChannel(offset: u16): seq<byte> {
    (U16(0x0010) + U16(offset) + [1]) + (U16(0x0010) + U16(offset) + [1]) + [0]
  }

  const CODEC_PACKET: seq<byte> :=
    U16(HCI_VS_WRITE_CODEC_CONFIG) + [34]
    + (U16(2048) + [1] + U32(16000)) + (U16(1) + ([0] + ([0] + [0])))
    + CodecChannel(0x0001) + CodecChannel(0x0011)

  const ENHANCED_CHANNEL: seq<byte> := [4, 4, 1, 0] + U32(0) + [0] + [0]

  const ENHANCED_PACKET: seq<byte> :=
    U16(HCI_VS_WRITE_CODEC_CONFIG_ENHANCED) + [26]
    + ([0] + U16(0) + U16(0) + [0])
    + ENHANCED_CHANNEL + ENHANCED_CHANNEL

  // ---------------------------------------------------------------- the firmware version

  datatype Version = Version(chip: nat, major: nat, minor: nat)

  function VersionOf(word: u16): Version {
    var major := word / 0x80 % 8;
    Version(word / 0x400 % 0x20, if word >= 0x8000 then major + 8 else major, word % 0x80)
  }

  function VersionAt(ev: Memory): Version { VersionOf(Word16(ev, 12)) }

  /** The three numbers in the script's file name tell apart all versions the controller can report. */
  lemma VersionIsInjective(v: u16, w: u16)
    requires VersionOf(v) == VersionOf(w)
    ensures v == w
  {
    VersionRecovered(v);
    VersionRecovered(w);
  }

  /** The word of a version: seven bits of the minor number, three of the major, five of the chip, and on top the
      fourth bit of the major. */
  lemma VersionIsPacked(chip: nat, major: nat, minor: nat)
    requires chip < 32 && major < 16 && minor < 128
    ensures var word := major / 8 * 0x8000 + chip * 0x400 + major % 8 * 0x80 + minor;
            word < 0x1_0000 && VersionOf(word) == Version(chip, major, minor)
  {
    var word := major / 8 * 0x8000 + chip * 0x400 + major % 8 * 0x80 + minor;
    assert major / 8 <= 1;
    assert word == 0x80 * (major / 8 * 0x100 + chip * 8 + major % 8) + minor;
    assert word / 0x80 == major / 8 * 0x100 + chip * 8 + major % 8;
    assert word == 0x400 * (major / 8 * 0x20 + chip) + (major % 8 * 0x80 + minor);
    assert word / 0x400 == major / 8 * 0x20 + chip;
  }

  lemma VersionRecovered(v: u16)
    ensures var r := VersionOf(v);
            && r.chip < 32 && r.major < 16 && r.minor < 128
            && v == r.major / 8 * 0x8000 + r.chip * 0x400 + r.major % 8 * 0x80 + r.minor
  {
    assert v / 0x80 / 8 == v / 0x400;
    assert v / 0x400 / 0x20 == v / 0x8000;
  }

  // ---------------------------------------------------------------- one callback

  /** How the switch of the callback goes: it may not come back, or it leaves a state, what it did, and whether
      the run goes on. */
  datatype Case = Hang | Ran(cfg: Cfg, effects: seq<Effect>, proceeding: bool)

  function Then(first: seq<Effect>, rest: Case): Case {
    match rest
    case Hang => Hang
    case Ran(c, effects, proceeding) => Ran(c, first + effects, proceeding)
  }

  function WriteCodec(b: Buffer, opcode: u16, packet: seq<byte>, s: Send): seq<Effect> {
    match s
    case NoBuffer => [Alloc(b, false)] + [ScoCfg(false)]
    case Sent(accepted) => [Alloc(b, true)] + [Xmit(opcode, packet, b, accepted)]
  }

  function DownloadEndCase(c: Cfg, a: Answers): Case {
    Ran(c.(state := Idle),
        [Dealloc(Command)] + ([FreeFw(c.fwData)]
        + (WriteCodec(Codec, HCI_VS_WRITE_CODEC_CONFIG, CODEC_PACKET, a.codec)
        + (WriteCodec(Enhanced, HCI_VS_WRITE_CODEC_CONFIG_ENHANCED, ENHANCED_PACKET, a.enhanced)
        + [FwCfg(true)]))),
        true)
  }

  /** Falls through to the end case when there is no command left or the command is refused. */
  function DownloadCase(c: Cfg, a: Answers): Case {
    match Scan(c.fw, c.cur)
    case None => Hang
    case Some(d) =>
      if KindAt(c.fw, d.pos) != SEND_COMMAND then DownloadEndCase(c.(cur := d), a)
      else
        var sent := [Xmit(OpcodeAt(c.fw, d.pos), PacketAt(c.fw, d.pos), Command, a.command)];
        var c' := c.(cur := Past(c.fw, d));
        if a.command then Ran(c', sent, true) else Then(sent, DownloadEndCase(c', a))
  }

  /** Loads the script; falls through to the download. */
  function ReadLocalVerCase(c: Cfg, ev: Memory, a: Answers): Case {
    var file := [OpenScript(VersionAt(ev))];
    match a.load
    case NoFile => Ran(c, file, false)
    case NoMemory(size) =>
      Ran(c.(cur := c.cur.(len := size), fwData := 0), file + [MallocFw(0)], false)
    case ShortRead(p, size) =>
      Ran(c.(cur := c.cur.(len := size), fwData := p), file + [MallocFw(p)], false)
    case Loaded(p, m, size) =>
      Then(file + [MallocFw(p)], DownloadCase(Installed(c, p, m, size), a))
  }

  function Installed(c: Cfg, p: nat, m: Memory, size: int): Cfg {
    c.(state := Download, fwData := p, fw := m, cur := Cursor(SCRIPT_HEADER_SIZE, size - SCRIPT_HEADER_SIZE))
  }

  function SetBdAddrCase(c: Cfg, a: Answers): Case {
    Ran(c.(state := ReadLocalVer),
        [Xmit(HCI_READ_LOCAL_VERSION, Parameterless(HCI_READ_LOCAL_VERSION), Command, a.readVersion)],
        a.readVersion)
  }

  /** Falls through when the controller has an address of its own, or when writing one is refused. */
  function ReadBdAddrCase(c: Cfg, ev: Memory, a: Answers): Case {
    if Read(ev, 6, BD_ADDR_LEN) != NULL_BDADDR then SetBdAddrCase(c, a)
    else
      var sent := [Xmit(HCI_VSC_WRITE_BD_ADDR, WriteAddrPacket(c.addr), Command, a.writeAddr)];
      var c' := c.(state := SetBdAddr);
      if a.writeAddr then Ran(c', sent, true) else Then(sent, SetBdAddrCase(c', a))
  }

  /** Falls through when reading the address is refused. */
  function SetUartBaudCase(c: Cfg, ev: Memory, a: Answers): Case {
    var sent := [HostBaud(UART_TARGET_BAUD_RATE)]
                + [Xmit(HCI_READ_LOCAL_BDADDR, Parameterless(HCI_READ_LOCAL_BDADDR), Command, a.readAddr)];
    var c' := c.(state := ReadBdAddr);
    if a.readAddr then Ran(c', sent, true) else Then(sent, ReadBdAddrCase(c', ev, a))
  }

  function StartCase(c: Cfg, held: seq<byte>, a: Answers): Case {
    Ran(c.(state := SetUartBaud),
        [Xmit(HCI_VSC_UPDATE_BAUDRATE, BaudPacket(held), Command, a.baud)],
        a.baud)
  }

  function Switch(c: Cfg, ev: Memory, held: seq<byte>, a: Answers): Case {
    match c.state
    case Idle => Ran(c, [], false)
    case Start => StartCase(c, held, a)
    case SetUartBaud => SetUartBaudCase(c, ev, a)
    case ReadBdAddr => ReadBdAddrCase(c, ev, a)
    case SetBdAddr => SetBdAddrCase(c, a)
    case ReadLocalVer => ReadLocalVerCase(c, ev, a)
    case Download => DownloadCase(c, a)
    case DownloadEnd => DownloadEndCase(c, a)
  }

  /** The status byte of the event: a failed command gets no buffer. */
  predicate Granted(c: Cfg, ev: Memory, a: Answers) {
    At(ev, 5) == 0 && c.cbacks && a.buffer.Some?
  }

  function AllocCase(c: Cfg, ev: Memory, a: Answers): Case {
    if At(ev, 5) == 0 && c.cbacks then
      match a.buffer
      case None => Ran(c, [Alloc(Command, false)], false)
      case Some(held) => Then([Alloc(Command, true)], Switch(c, ev, held, a))
    else Ran(c, [], false)
  }

  datatype Outcome = Hangs | Returns(cfg: Cfg, effects: seq<Effect>)

  function Closing(c: Cfg, granted: bool, proceeding: bool): seq<Effect> {
    if !c.cbacks then []
    else if proceeding then [Dealloc(Event)]
    else
      [Dealloc(Event)] + ((if granted then [Dealloc(Command)] else [])
      + ([FreeFw(c.fwData)] + [FwCfg(false)]))
  }

  /** The whole callback for the event ev. */
  function Step(c: Cfg, ev: Memory, a: Answers): Outcome {
    match AllocCase(c, ev, a)
    case Hang => Hangs
    case Ran(c', effects, proceeding) =>
      Returns(if proceeding then c' else c'.(state := Idle),
              effects + Closing(c', Granted(c, ev, a), proceeding))
  }

  /** hw_config_start: whether the reset is accepted is not looked at. */
  function Begin(c: Cfg, got: bool, accepted: bool): (Cfg, seq<Effect>) {
    if !c.cbacks then (c.(state := Idle), [])
    else if got then
      (c.(state := Start),
       [Alloc(Command, true)] + [Xmit(HCI_RESET, Parameterless(HCI_RESET), Command, accepted)])
    else (c.(state := Idle), [Alloc(Command, false)] + [FwCfg(false)])
  }
}
