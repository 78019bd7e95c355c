/** The script buffers of one run after another: when a pointer is freed twice. */
module HwConfigHeap {
  import opened Bytes
  import opened BtsScript
  import opened HwConfig
  import opened HwConfigRuns

  // ---------------------------------------------------------------- runs one after the other

  /** Every pointer that is freed is null or live, when these are live at first. */
  predicate FreesLive(es: seq<Effect>, live: set<nat>) {
    es == [] ||
      match es[0]
      case MallocFw(p) => FreesLive(es[1..], if p == 0 then live else live + {p})
      case FreeFw(q) => (q == 0 || q in live) && FreesLive(es[1..], live - {q})
      case _ => FreesLive(es[1..], live)
  }

  function LiveAfter(es: seq<Effect>, live: set<nat>): set<nat>
    decreases |es|
  {
    if es == [] then live
    else
      match es[0]
      case MallocFw(p) => LiveAfter(es[1..], if p == 0 then live else live + {p})
      case FreeFw(q) => LiveAfter(es[1..], live - {q})
      case _ => LiveAfter(es[1..], live)
  }

  lemma {:induction false} HeapDecides(es: seq<Effect>, live: set<nat>)
    ensures FreesLive(es, live) == FreesLive(Only(es, Heap), live)
    ensures LiveAfter(es, live) == LiveAfter(Only(es, Heap), live)
    decreases |es|
  {
    if es == [] {
    } else {
      OnlyCons(es[0], es[1..], Heap);
      assert [es[0]] + es[1..] == es;
      match es[0] {
        case MallocFw(p) => HeapDecides(es[1..], if p == 0 then live else live + {p});
        case FreeFw(q) => HeapDecides(es[1..], live - {q});
        case _ => HeapDecides(es[1..], live);
      }
      if In(es[0], Heap) {
        assert Only(es, Heap)[1..] == Only(es[1..], Heap);
      }
    }
  }

  lemma {:induction false} FreesLiveAppend(a: seq<Effect>, b: seq<Effect>, live: set<nat>)
    ensures FreesLive(a + b, live) <==> FreesLive(a, live) && FreesLive(b, LiveAfter(a, live))
    ensures LiveAfter(a + b, live) == LiveAfter(b, LiveAfter(a, live))
    decreases |a|
  {
    if a == [] {
      assert a + b == b;
    } else {
      assert (a + b)[0] == a[0] && (a + b)[1..] == a[1..] + b;
      match a[0] {
        case MallocFw(p) => FreesLiveAppend(a[1..], b, if p == 0 then live else live + {p});
        case FreeFw(q) => FreesLiveAppend(a[1..], b, live - {q});
        case _ => FreesLiveAppend(a[1..], b, live);
      }
    }
  }

  predicate Completes(c: Cfg, inputs: seq<Input>) {
    var o := WholeRun(c, inputs);
    o.Returns? && o.cfg.state == Idle
  }

  /** The run allocates nothing, and fw_data points somewhere. */
  predicate FreesStale(c: Cfg, inputs: seq<Input>)
    requires WholeRun(c, inputs).Returns?
  {
    Only(WholeRun(c, inputs).effects, Mallocs) == [] && c.fwData != 0
  }

  /** What a run from its start does to the heap. */
  lemma WholeRunHeap(c: Cfg, inputs: seq<Input>)
    requires c.cbacks && Completes(c, inputs)
    ensures var o := WholeRun(c, inputs);
            var mallocs := Only(o.effects, Mallocs);
            && o.cfg.cbacks
            && Only(o.effects, Frees) == [FreeFw(o.cfg.fwData)]
            && Only(o.effects, Heap) == mallocs + [FreeFw(o.cfg.fwData)]
            && (mallocs == [] ==> o.cfg.fwData == c.fwData)
            && (mallocs != [] ==> mallocs == [MallocFw(o.cfg.fwData)])
  {
    var (begun, first) := Begin(c, true, true);
    var o := Run(begun, inputs);
    ScriptBufferFreedOnce(begun, inputs);
    BeginParts(c, true, Mallocs);
    BeginParts(c, true, Frees);
    BeginParts(c, true, Heap);
    OnlyAppend(first, o.effects, Mallocs);
    OnlyAppend(first, o.effects, Frees);
    OnlyAppend(first, o.effects, Heap);
  }

  /** When nothing is live as a run starts, it frees what is not live exactly when it allocates nothing and fw_data
      points somewhere; and nothing is live as it ends. */
  lemma RunFreesLive(c: Cfg, inputs: seq<Input>)
    requires c.cbacks && Completes(c, inputs)
    ensures var o := WholeRun(c, inputs);
            && (FreesLive(o.effects, {}) <==> !FreesStale(c, inputs))
            && LiveAfter(o.effects, {}) == {}
  {
    var o := WholeRun(c, inputs);
    var p := o.cfg.fwData;
    WholeRunHeap(c, inputs);
    HeapDecides(o.effects, {});
    JustFree(p);
    if Only(o.effects, Mallocs) == [] {
      assert Only(o.effects, Heap) == [FreeFw(p)];
    }
  }

  lemma JustFree(p: nat)
    ensures FreesLive([FreeFw(p)], {}) <==> p == 0
    ensures LiveAfter([FreeFw(p)], {}) == {}
    ensures FreesLive([MallocFw(p)] + [FreeFw(p)], {}) && LiveAfter([MallocFw(p)] + [FreeFw(p)], {}) == {}
  {
    var live := if p == 0 then {} else {p};
    var free := [FreeFw(p)];
    assert free[1..] == [] && {} + {p} == {p};
    assert FreesLive(free, live) && LiveAfter(free, live) == LiveAfter([], live - {p});
    assert live - {p} == {};
    assert ([MallocFw(p)] + free)[1..] == free;
  }

  /** A second run that allocates nothing frees the pointer the first run has freed; and it frees what is not live
      exactly when in addition that pointer is not null. */
  lemma SecondRunFreesAgain(c: Cfg, first: seq<Input>, second: seq<Input>)
    requires c.cbacks && Completes(c, first) && Completes(WholeRun(c, first).cfg, second)
    ensures var o := WholeRun(c, first);
            var r := WholeRun(o.cfg, second);
            && (Only(r.effects, Mallocs) == [] ==> Only(r.effects, Frees) == Only(o.effects, Frees))
            && (!FreesLive(r.effects, LiveAfter(o.effects, {})) <==>
                  Only(r.effects, Mallocs) == [] && o.cfg.fwData != 0)
  {
    RunFreesLive(c, first);
    WholeRunHeap(c, first);
    WholeRunHeap(WholeRun(c, first).cfg, second);
    RunFreesLive(WholeRun(c, first).cfg, second);
  }

  /** Each run starts where the one before it has ended. */
  predicate AllComplete(c: Cfg, runs: seq<seq<Input>>)
    decreases |runs|
  {
    runs != [] ==> Completes(c, runs[0]) && AllComplete(WholeRun(c, runs[0]).cfg, runs[1..])
  }

  function AllEffects(c: Cfg, runs: seq<seq<Input>>): seq<Effect>
    requires AllComplete(c, runs)
    decreases |runs|
  {
    if runs == [] then []
    else WholeRun(c, runs[0]).effects + AllEffects(WholeRun(c, runs[0]).cfg, runs[1..])
  }

  /** None of the runs allocates nothing while fw_data still points to what an earlier one allocated. */
  predicate NeverStale(c: Cfg, runs: seq<seq<Input>>)
    requires AllComplete(c, runs)
    decreases |runs|
  {
    runs != [] ==> !FreesStale(c, runs[0]) && NeverStale(WholeRun(c, runs[0]).cfg, runs[1..])
  }

  /** Over any number of runs every pointer freed is null or live exactly when no run allocates nothing while fw_data
      still points somewhere. */
  lemma {:induction false} RunsFreeLive(c: Cfg, runs: seq<seq<Input>>)
    requires c.cbacks && AllComplete(c, runs)
    ensures FreesLive(AllEffects(c, runs), {}) <==> NeverStale(c, runs)
    decreases |runs|
  {
    if runs == [] {
    } else {
      var o := WholeRun(c, runs[0]);
      RunFreesLive(c, runs[0]);
      WholeRunHeap(c, runs[0]);
      FreesLiveAppend(o.effects, AllEffects(o.cfg, runs[1..]), {});
      RunsFreeLive(o.cfg, runs[1..]);
    }
  }

  // ---------------------------------------------------------------- a script buffer that is freed twice

  lemma PassesOn(c: Cfg, i: Input, rest: seq<Input>, c': Cfg, es: seq<Effect>)
    requires c.cbacks && c.state != Idle && AllWell(i) && c'.cbacks && Only(es, Mallocs) == []
    requires Switch(c, i.ev, i.answers.buffer.value, i.answers) == Ran(c', es, true)
    ensures var o := Run(c, [i] + rest);
            var r := Run(c', rest);
            r.Returns? ==> o.Returns? && o.cfg == r.cfg && Only(o.effects, Mallocs) == Only(r.effects, Mallocs)
  {
    assert ([i] + rest)[1..] == rest;
    WellStep(c, i, Mallocs);
    RunFirst(c, [i] + rest, Mallocs);
    if Run(c', rest).Returns? {
      assert [] + Only(Run(c', rest).effects, Mallocs) == Only(Run(c', rest).effects, Mallocs);
    }
  }

  lemma SendPassesOn(c: Cfg, i: Input, rest: seq<Input>, c': Cfg, x: Effect)
    requires c.cbacks && c.state != Idle && AllWell(i) && c'.cbacks && x.Xmit?
    requires Switch(c, i.ev, i.answers.buffer.value, i.answers) == Ran(c', [x], true)
    ensures var o := Run(c, [i] + rest);
            var r := Run(c', rest);
            r.Returns? ==> o.Returns? && o.cfg == r.cfg && Only(o.effects, Mallocs) == Only(r.effects, Mallocs)
  {
    OnlyCons(x, [], Mallocs);
    PassesOn(c, i, rest, c', [x]);
  }

  /** The callback that does not get its script ends the run. */
  lemma LoadFails(c: Cfg, load: Load)
    requires c.cbacks && c.state == ReadLocalVer && (load.NoFile? || load.ShortRead?)
    ensures var o := Run(c, [Calm(load)]);
            && o.Returns? && o.cfg.state == Idle
            && o.cfg.fwData == (if load.NoFile? then c.fwData else load.p)
            && Only(o.effects, Mallocs) == if load.NoFile? then [] else [MallocFw(load.p)]
  {
    var i := Calm(load);
    var s := Step(c, i.ev, i.answers);
    var k := ReadLocalVerCase(c, i.ev, i.answers);
    FailingMallocs(OpenScript(VersionAt(i.ev)), if load.NoFile? then [] else [MallocFw(load.p)]);
    FailingStep(c, i, k);
    assert [i][1..] == [] && Run(s.cfg, []) == Returns(s.cfg, []) && s.effects + [] == s.effects;
  }

  lemma FailingMallocs(file: Effect, mallocs: seq<Effect>)
    requires file.OpenScript? && (mallocs == [] || (|mallocs| == 1 && mallocs[0].MallocFw?))
    ensures Only([file] + mallocs, Mallocs) == mallocs && Only([file], Mallocs) == []
  {
    OnlyCons(file, mallocs, Mallocs);
    if mallocs != [] {
      assert mallocs == [mallocs[0]];
      OnlyCons(mallocs[0], [], Mallocs);
    }
  }

  lemma FailingStep(c: Cfg, i: Input, k: Case)
    requires c.cbacks && AllWell(i) && k.Ran? && !k.proceeding && k.cfg.cbacks
    requires Switch(c, i.ev, i.answers.buffer.value, i.answers) == k
    ensures var o := Step(c, i.ev, i.answers);
            && o.Returns? && o.cfg == k.cfg.(state := Idle)
            && Only(o.effects, Mallocs) == Only(k.effects, Mallocs)
  {
    var closing := Closing(k.cfg, true, false);
    ClosingParts(k.cfg, true, false);
    OnlyAppend([Alloc(Command, true)] + k.effects, closing, Mallocs);
    OnlyCons(Alloc(Command, true), k.effects, Mallocs);
  }

  function FourTimes(i: Input): seq<Input> { [i] + ([i] + ([i] + [i])) }

  /** Reset, Update Baudrate, Read BD_ADDR, Read Local Version, and then no script. */
  lemma FourCallbacks(c: Cfg, load: Load)
    requires c.cbacks && (load.NoFile? || load.ShortRead?)
    ensures Completes(c, FourTimes(Calm(load)))
    ensures var o := WholeRun(c, FourTimes(Calm(load)));
            && o.cfg.fwData == (if load.NoFile? then c.fwData else load.p)
            && Only(o.effects, Mallocs) == if load.NoFile? then [] else [MallocFw(load.p)]
  {
    var i := Calm(load);
    var (begun, first) := Begin(c, true, true);
    var one := [i];
    var asked := c.(state := ReadBdAddr);
    var later := c.(state := ReadLocalVer);
    LoadFails(later, load);
    NotBlank(load);
    SendPassesOn(asked, i, one, later, ReadVersion());
    BaudPassesOn(c, i, [i] + one);
    SendPassesOn(begun, i, [i] + ([i] + one), c.(state := SetUartBaud), Baud([]));
    BeginParts(c, true, Mallocs);
    OnlyAppend(first, Run(begun, FourTimes(i)).effects, Mallocs);
  }

  lemma BaudPassesOn(c: Cfg, i: Input, rest: seq<Input>)
    requires c.cbacks && AllWell(i)
    ensures var o := Run(c.(state := SetUartBaud), [i] + rest);
            var r := Run(c.(state := ReadBdAddr), rest);
            r.Returns? ==> o.Returns? && o.cfg == r.cfg && Only(o.effects, Mallocs) == Only(r.effects, Mallocs)
  {
    var baud := HostBaud(UART_TARGET_BAUD_RATE);
    OnlyCons(baud, [ReadAddr()], Mallocs);
    OnlyCons(ReadAddr(), [], Mallocs);
    PassesOn(c.(state := SetUartBaud), i, rest, c.(state := ReadBdAddr), [baud] + [ReadAddr()]);
  }

  /** A run that finds no script frees what fw_data holds, so all runs from here free what is live exactly when that
      is null. */
  lemma FreesLiveIffNull(c: Cfg)
    requires c.cbacks
    ensures (forall inputs: seq<Input> :: Completes(c, inputs) ==> FreesLive(WholeRun(c, inputs).effects, {}))
       <==> c.fwData == 0
  {
    if c.fwData == 0 {
      forall inputs: seq<Input> | Completes(c, inputs) ensures FreesLive(WholeRun(c, inputs).effects, {}) {
        RunFreesLive(c, inputs);
      }
    } else {
      FourCallbacks(c, NoFile);
      RunFreesLive(c, FourTimes(Calm(NoFile)));
    }
  }

  /** So after a run every second run frees what is live exactly when the first has left a null pointer behind, as it
      does when it got no memory for its script. */
  lemma SecondRunsFreeLiveIffNull(c: Cfg, first: seq<Input>)
    requires c.cbacks && Completes(c, first)
    ensures var o := WholeRun(c, first);
            (forall second: seq<Input> :: Completes(o.cfg, second) ==>
               FreesLive(WholeRun(o.cfg, second).effects, LiveAfter(o.effects, {}))) <==> o.cfg.fwData == 0
  {
    RunFreesLive(c, first);
    WholeRunHeap(c, first);
    FreesLiveIffNull(WholeRun(c, first).cfg);
  }

  /** From any state there are two runs that free a pointer twice: the first gets a buffer for its script, and the
      second finds no script. */
  lemma StaleRunsExist(c: Cfg, p: nat)
    requires c.cbacks && p != 0
    ensures var runs := [FourTimes(Calm(ShortRead(p, 0))), FourTimes(Calm(NoFile))];
            AllComplete(c, runs) && !FreesLive(AllEffects(c, runs), {})
  {
    var first, second := FourTimes(Calm(ShortRead(p, 0))), FourTimes(Calm(NoFile));
    var runs := [first, second];
    FourCallbacks(c, ShortRead(p, 0));
    var d := WholeRun(c, first).cfg;
    WholeRunHeap(c, first);
    FourCallbacks(d, NoFile);
    assert runs[1..] == [second] && [second][1..] == [];
    assert AllComplete(d, [second]);
    assert !NeverStale(d, [second]);
    RunsFreeLive(c, runs);
  }
}
