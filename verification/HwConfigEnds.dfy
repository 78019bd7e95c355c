/** Which scripts can make a run hang, whatever the controller and the stack answer. */
module HwConfigEnds {
  import opened Bytes
  import opened BtsScript
  import opened HwConfig
  import opened HwConfigRuns

  // ---------------------------------------------------------------- scripts over which no run hangs

  /** If this loads a script at all, the download never gets stuck in it. */
  predicate GoodLoad(load: Load) {
    load.Loaded? ==> NeverStuck(load.memory, ScriptStart(load))
  }

  /** The same of what is left of the script that is being downloaded. */
  predicate GoodLeft(c: Cfg) {
    c.state == Download ==> NeverStuck(c.fw, c.cur)
  }

  lemma GoodDownload(c: Cfg, a: Answers)
    requires NeverStuck(c.fw, c.cur)
    ensures var k := DownloadCase(c, a);
            k.Ran? && (k.cfg.state == Idle || (k.cfg.state == c.state && NeverStuck(k.cfg.fw, k.cfg.cur)))
  {}

  lemma GoodSwitch(c: Cfg, ev: Memory, held: seq<byte>, a: Answers)
    requires GoodLeft(c) && GoodLoad(a.load)
    ensures Switch(c, ev, held, a).Ran? && GoodLeft(Switch(c, ev, held, a).cfg)
  {
    match c.state
    case SetUartBaud => UartStates(c, ev, a);
    case ReadBdAddr => AddressStates(c, ev, a);
    case ReadLocalVer =>
      if a.load.Loaded? {
        GoodDownload(Installed(c, a.load.p, a.load.memory, a.load.size), a);
      }
    case Download => GoodDownload(c, a);
    case _ =>
  }

  /** Over good scripts every run comes back, whatever is refused and whatever fails. */
  lemma {:induction false} GoodScriptsReturn(c: Cfg, inputs: seq<Input>)
    requires GoodLeft(c) && forall i :: i in inputs ==> GoodLoad(i.answers.load)
    ensures Run(c, inputs).Returns?
    decreases |inputs|
  {
    if inputs == [] || c.state == Idle {
    } else {
      var i := inputs[0];
      if Granted(c, i.ev, i.answers) {
        GoodSwitch(c, i.ev, i.answers.buffer.value, i.answers);
      }
      GoodScriptsReturn(Step(c, i.ev, i.answers).cfg, inputs[1..]);
    }
  }

  /** A well-formed script of at most this many commands, in which every dropped command has its wait event. */
  ghost predicate FineScript(load: Load, most: nat) {
    load.Loaded? ==>
      exists actions: seq<GoodAction> ::
        ScriptIn(load, actions) && AwaitedIn(load, actions) && |Commands(actions)| <= most
  }

  lemma FineIsGood(load: Load, most: nat)
    requires FineScript(load, most)
    ensures GoodLoad(load) && Bounded(load, most)
  {
    if load.Loaded? {
      var actions: seq<GoodAction> :|
        ScriptIn(load, actions) && AwaitedIn(load, actions) && |Commands(actions)| <= most;
      NeverStuckInScript(load.memory, ScriptStart(load), actions);
      SendsOfScript(load.memory, ScriptStart(load), actions);
    }
  }

  /** So a started run over such scripts ends, and reports exactly once, whatever is refused and whatever fails. */
  lemma StartedRunEnds(c: Cfg, inputs: seq<Input>, most: nat)
    requires c.cbacks && |inputs| >= 6 + most
    requires forall i :: i in inputs ==> FineScript(i.answers.load, most)
    ensures var o := WholeRun(c, inputs);
            o.Returns? && o.cfg.state == Idle && |Only(o.effects, Reports)| == 1
  {
    forall i | i in inputs ensures GoodLoad(i.answers.load) && Bounded(i.answers.load, most) {
      FineIsGood(i.answers.load, most);
    }
    GoodScriptsReturn(Begin(c, true, true).0, inputs);
    StartedRunReports(c, inputs, most);
  }

  // ---------------------------------------------------------------- scripts over which some run hangs

  /** A callback in which all goes well hands on whether the run hangs. */
  lemma HandsOn(c: Cfg, i: Input, rest: seq<Input>, c': Cfg, es: seq<Effect>)
    requires c.cbacks && c.state != Idle && AllWell(i) && c'.cbacks
    requires Switch(c, i.ev, i.answers.buffer.value, i.answers) == Ran(c', es, true)
    ensures Run(c, [i] + rest).Hangs? <==> Run(c', rest).Hangs?
  {
    assert ([i] + rest)[1..] == rest;
    WellStep(c, i, Reports);
    RunFirst(c, [i] + rest, Reports);
  }

  lemma StuckNow(c: Cfg, i: Input, rest: seq<Input>)
    requires c.state == Download && AllWell(i) && Scan(c.fw, c.cur).None? && c.cbacks
    ensures Run(c, [i] + rest).Hangs?
  {
    WellStep(c, i, Reports);
  }

  /** The place it gets stuck in is still ahead when a command has been sent. */
  lemma SendsOneMore(c: Cfg, i: Input, rest: seq<Input>)
    requires c.cbacks && c.state == Download && AllWell(i) && !NeverStuck(c.fw, c.cur) && Scan(c.fw, c.cur).Some?
    ensures var c' := c.(cur := Past(c.fw, Scan(c.fw, c.cur).value));
            && !NeverStuck(c'.fw, c'.cur) && Sends(c.fw, c.cur) == 1 + Sends(c'.fw, c'.cur)
            && (Run(c, [i] + rest).Hangs? <==> Run(c', rest).Hangs?)
  {
    var c' := c.(cur := Past(c.fw, Scan(c.fw, c.cur).value));
    HandsOn(c, i, rest, c', DownloadCase(c, i.answers).effects);
  }

  /** With every command accepted the download comes to where it gets stuck. */
  lemma {:induction false} DownloadHangs(c: Cfg, i: Input) returns (inputs: seq<Input>)
    requires c.cbacks && c.state == Download && AllWell(i) && !NeverStuck(c.fw, c.cur)
    ensures inputs != [] && Run(c, inputs).Hangs? && forall j :: j in inputs ==> j == i
    decreases Sends(c.fw, c.cur)
  {
    if Scan(c.fw, c.cur).None? {
      StuckNow(c, i, []);
      inputs := [i] + [];
    } else {
      SendsOneMore(c, i, []);
      var rest := DownloadHangs(c.(cur := Past(c.fw, Scan(c.fw, c.cur).value)), i);
      SendsOneMore(c, i, rest);
      inputs := [i] + rest;
    }
  }

  /** The callback that loads the script hangs the run exactly when one in the download state would. */
  lemma LoadHandsOn(c: Cfg, inputs: seq<Input>)
    requires c.cbacks && c.state == ReadLocalVer && inputs != [] && AllWell(inputs[0])
    requires inputs[0].answers.load.Loaded?
    ensures var load := inputs[0].answers.load;
            Run(c, inputs).Hangs? <==> Run(Installed(c, load.p, load.memory, load.size), inputs).Hangs?
  {
    var i := inputs[0];
    var d := Installed(c, i.answers.load.p, i.answers.load.memory, i.answers.load.size);
    LoadStep(c, i, Reports);
    if Step(c, i.ev, i.answers).Returns? {
      RunFirst(c, inputs, Reports);
      RunFirst(d, inputs, Reports);
    }
  }

  lemma LoadHangs(c: Cfg, load: Load) returns (inputs: seq<Input>)
    requires c.cbacks && c.state == ReadLocalVer && !GoodLoad(load)
    ensures Run(c, inputs).Hangs? && forall i :: i in inputs ==> i == Calm(load)
  {
    NotBlank(load);
    inputs := DownloadHangs(Installed(c, load.p, load.memory, load.size), Calm(load));
    assert inputs[0] in inputs;
    LoadHandsOn(c, inputs);
  }

  /** Update Baudrate, Read BD_ADDR, Read Local Version, and then the script. */
  lemma ThreeHandOn(c: Cfg, load: Load, rest: seq<Input>)
    requires c.cbacks
    ensures var i := Calm(load);
            Run(c.(state := Start), [i] + ([i] + ([i] + rest))).Hangs? <==> Run(c.(state := ReadLocalVer), rest).Hangs?
  {
    var i := Calm(load);
    var baud := c.(state := SetUartBaud);
    var asked := c.(state := ReadBdAddr);
    NotBlank(load);
    HandsOn(asked, i, rest, c.(state := ReadLocalVer), [ReadVersion()]);
    HandsOn(baud, i, [i] + rest, asked, [HostBaud(UART_TARGET_BAUD_RATE)] + [ReadAddr()]);
    HandsOn(c.(state := Start), i, [i] + ([i] + rest), baud, [Baud([])]);
  }

  lemma CalmRunHangs(c: Cfg, load: Load) returns (inputs: seq<Input>)
    requires c.cbacks && !GoodLoad(load)
    ensures WholeRun(c, inputs).Hangs? && forall i :: i in inputs ==> i == Calm(load)
  {
    var i := Calm(load);
    var rest := LoadHangs(c.(state := ReadLocalVer), load);
    ThreeHandOn(c, load, rest);
    inputs := [i] + ([i] + ([i] + rest));
  }

  /** Some run in which loading the script goes like this hangs. */
  ghost predicate CanHang(c: Cfg, load: Load) {
    exists inputs: seq<Input> ::
      (forall i :: i in inputs ==> i.answers.load == load) && WholeRun(c, inputs).Hangs?
  }

  lemma GoodScriptCannotHang(c: Cfg, load: Load, inputs: seq<Input>)
    requires c.cbacks && GoodLoad(load) && forall i :: i in inputs ==> i.answers.load == load
    ensures WholeRun(c, inputs).Returns?
  {
    GoodScriptsReturn(Begin(c, true, true).0, inputs);
  }

  lemma BadScriptCanHang(c: Cfg, load: Load)
    requires c.cbacks && !GoodLoad(load)
    ensures CanHang(c, load)
  {
    var inputs := CalmRunHangs(c, load);
  }

  /** Whatever is in the script, it can make a run hang exactly when the download would get stuck in it. */
  lemma HangsIffScriptIsBad(c: Cfg, load: Load)
    requires c.cbacks
    ensures CanHang(c, load) <==> !GoodLoad(load)
  {
    if GoodLoad(load) {
      forall inputs: seq<Input> | forall i :: i in inputs ==> i.answers.load == load
        ensures WholeRun(c, inputs).Returns?
      {
        GoodScriptCannotHang(c, load, inputs);
      }
    } else {
      BadScriptCanHang(c, load);
    }
  }

  /** And a well-formed script can exactly when one of its dropped commands has no wait event behind it. */
  lemma HangsIffDropUnawaited(c: Cfg, load: Load, actions: seq<GoodAction>)
    requires c.cbacks && ScriptIn(load, actions)
    ensures CanHang(c, load) <==> !AwaitedIn(load, actions)
  {
    HangsIffScriptIsBad(c, load);
    NeverStuckInScript(load.memory, ScriptStart(load), actions);
  }
}
