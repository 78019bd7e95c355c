/** Ranging results, gathered over several events until the driver says that it is done. */
module Rtt {
  import opened Bytes
  import opened Netlink
  import opened Sequences

  const RTT_ATTRIBUTE_RESULTS_COMPLETE: u16 := 30
  const RTT_ATTRIBUTE_RESULTS_PER_TARGET: u16 := 31
  const RTT_ATTRIBUTE_RESULT: u16 := 33

  const MAX_RESULTS: nat := 1024

  /** An event, where its vendor data is, and for which of its results there will be no memory, by where their payload
      is. */
  datatype Event = Event(m: Memory, data: Option<Located>, refused: set<int>) {
    function Attributes(): seq<Located> {
      if data.Some? then Inside(m, data.value) else []
    }
  }

  // ---------------------------------------------------------------- what the events say

  predicate IsResult(a: Located) { a.kind == RTT_ATTRIBUTE_RESULT }

  /** A result there is no memory for. */
  predicate Refused(e: Event, a: Located) { IsResult(a) && a.data in e.refused }

  /** What an attribute of a target adds to what is held. */
  function Brought(e: Event, a: Located): seq<seq<byte>> {
    if IsResult(a) && !Refused(e, a) then [Read(e.m, a.data, a.len)] else []
  }

  /** The payloads of the results of one target, up to the first there is no memory for. */
  function OfTarget(e: Event, w: seq<Located>): seq<seq<byte>> {
    if w == [] || Refused(e, w[0]) then [] else Brought(e, w[0]) + OfTarget(e, w[1..])
  }

  predicate RunsOut(e: Event, w: seq<Located>) {
    w != [] && (Refused(e, w[0]) || RunsOut(e, w[1..]))
  }

  predicate OnTarget(a: Located) { a.kind == RTT_ATTRIBUTE_RESULTS_PER_TARGET }

  function OfAttribute(e: Event, a: Located): seq<seq<byte>> {
    if OnTarget(a) then OfTarget(e, Inside(e.m, a)) else []
  }

  /** The payloads of all results, target after target. */
  function OfEvent(e: Event, w: seq<Located>): seq<seq<byte>> {
    if w == [] then [] else OfAttribute(e, w[0]) + OfEvent(e, w[1..])
  }

  /** How many places of the array the results of a target take: one for each that is stored, and one more for the
      null pointer that malloc returns when there is no memory. */
  function TargetPlaces(e: Event, w: seq<Located>): nat {
    |OfTarget(e, w)| + (if RunsOut(e, w) then 1 else 0)
  }

  function AttributePlaces(e: Event, a: Located): nat {
    if OnTarget(a) then TargetPlaces(e, Inside(e.m, a)) else 0
  }

  /** A target runs out of memory and nothing is stored after it, so that the place of its null pointer is not used
      again. */
  predicate EndsOnNull(e: Event, w: seq<Located>) {
    && w != []
    && (|| (OnTarget(w[0]) && RunsOut(e, Inside(e.m, w[0])) && OfEvent(e, w[1..]) == [])
        || EndsOnNull(e, w[1..]))
  }

  /** How many places the attributes take. */
  function Places(e: Event, w: seq<Located>): nat {
    |OfEvent(e, w)| + (if EndsOnNull(e, w) then 1 else 0)
  }

  /** The completion flag: what the driver says, or set because there was no memory. */
  function FlagOf(e: Event, a: Located, before: u32): u32 {
    if a.kind == RTT_ATTRIBUTE_RESULTS_COMPLETE then Word32(e.m, a.data)
    else if OnTarget(a) && RunsOut(e, Inside(e.m, a)) then 1
    else before
  }

  function Flag(e: Event, w: seq<Located>, before: u32): u32 {
    if w == [] then before else Flag(e, w[1..], FlagOf(e, w[0], before))
  }

  function Payloads(e: Event): seq<seq<byte>> { OfEvent(e, e.Attributes()) }

  // ---------------------------------------------------------------- histories

  /** The results held, the completion flag, and what the client has been given, call by call. */
  datatype History = History(held: seq<seq<byte>>, flag: u32, given: seq<seq<seq<byte>>>)

  const BEGINNING := History([], 0, [])

  /** An event without vendor data is not survived: its attributes are looked for at a null pointer. */
  function After(h: History, e: Event): History {
    var all := h.held + Payloads(e);
    var flag := Flag(e, e.Attributes(), h.flag);
    if e.data.None? then h
    else if flag == 0 then History(all, flag, h.given) else History([], flag, h.given + [all])
  }

  function AfterAll(h: History, events: seq<Event>): History
    decreases |events|
  {
    if events == [] then h else AfterAll(After(h, events[0]), events[1..])
  }

  function AllPayloads(events: seq<Event>): seq<seq<byte>> {
    if events == [] then [] else Payloads(events[0]) + AllPayloads(events[1..])
  }

  function Concat<T>(s: seq<seq<T>>): seq<T> {
    if s == [] then [] else s[0] + Concat(s[1..])
  }

  lemma {:induction false} ConcatLast<T>(s: seq<seq<T>>, t: seq<T>)
    ensures Concat(s + [t]) == Concat(s) + t
  {
    if s == [] {
      assert s + [t] == [t] && Concat([t]) == t + Concat<T>([]);
    } else {
      assert (s + [t])[1..] == s[1..] + [t];
      ConcatLast(s[1..], t);
      assert s[0] + (Concat(s[1..]) + t) == s[0] + Concat(s[1..]) + t;
    }
  }

  /** Over any events, what the client has been given followed by what is held is what the events brought, in order:
      no result is lost, repeated or moved. */
  lemma {:induction false} NothingIsLost(h: History, events: seq<Event>)
    ensures var r := AfterAll(h, events);
            Concat(r.given) + r.held == Concat(h.given) + h.held + AllPayloads(events)
    decreases |events|
  {
    if events == [] {
      assert Concat(h.given) + h.held + [] == Concat(h.given) + h.held;
    } else {
      var h' := After(h, events[0]);
      NothingIsLost(h', events[1..]);
      OneEventLosesNothing(h, events[0]);
      Assoc(Concat(h.given) + h.held, Payloads(events[0]), AllPayloads(events[1..]));
    }
  }

  lemma OneEventLosesNothing(h: History, e: Event)
    ensures var r := After(h, e); Concat(r.given) + r.held == Concat(h.given) + h.held + Payloads(e)
  {
    var all := h.held + Payloads(e);
    Assoc(Concat(h.given), h.held, Payloads(e));
    if e.data.None? {
      assert Concat(h.given) + h.held + [] == Concat(h.given) + h.held;
    } else if After(h, e).flag != 0 {
      ConcatLast(h.given, all);
      assert Concat(h.given + [all]) + [] == Concat(h.given + [all]);
    }
  }

  /** The driver says that it is done, or there is no memory, for the first time in the last of these events. */
  predicate CompletesLast(events: seq<Event>, flag: u32)
    decreases |events|
  {
    && events != []
    && var flag' := Flag(events[0], events[0].Attributes(), flag);
       if |events| == 1 then events[0].data.Some? && flag' != 0
       else flag' == 0 && CompletesLast(events[1..], flag')
  }

  /** When it does, the client is called once, with the results of all the events so far. */
  lemma {:induction false} CompletionGivesAll(h: History, events: seq<Event>)
    requires CompletesLast(events, h.flag)
    ensures AfterAll(h, events).held == []
    ensures AfterAll(h, events).given == h.given + [h.held + AllPayloads(events)]
    decreases |events|
  {
    var h' := After(h, events[0]);
    if |events| == 1 {
      assert events[1..] == [];
      assert AllPayloads(events) == Payloads(events[0]) + AllPayloads([]);
      assert Payloads(events[0]) + AllPayloads([]) == Payloads(events[0]);
      assert AfterAll(h', []) == h';
    } else {
      CompletionGivesAll(h', events[1..]);
      assert h.held + [] == h.held;
      Assoc(h.held, Payloads(events[0]), AllPayloads(events[1..]));
    }
  }

  /** The flag is never taken back: a command that has completed hands every further event over at once, unless the
      event itself says that it is not complete. */
  lemma OnceCompleted(h: History, e: Event)
    requires h.flag != 0 && e.data.Some? && h.held == []
    ensures After(h, e).flag == Flag(e, e.Attributes(), h.flag)
    ensures After(h, e).flag != 0 ==> After(h, e).given == h.given + [Payloads(e)] && After(h, e).held == []
    ensures (forall a :: a in e.Attributes() ==> a.kind != RTT_ATTRIBUTE_RESULTS_COMPLETE) ==> After(h, e).flag != 0
  {
    assert [] + Payloads(e) == Payloads(e);
    if forall a :: a in e.Attributes() ==> a.kind != RTT_ATTRIBUTE_RESULTS_COMPLETE {
      FlagStays(e, e.Attributes(), h.flag);
    }
  }

  lemma {:induction false} FlagStays(e: Event, w: seq<Located>, before: u32)
    requires before != 0 && forall a :: a in w ==> a.kind != RTT_ATTRIBUTE_RESULTS_COMPLETE
    ensures Flag(e, w, before) != 0
    decreases |w|
  {
    if w == [] {
    } else {
      assert w[0] in w;
      FlagStays(e, w[1..], FlagOf(e, w[0], before));
    }
  }

  // ---------------------------------------------------------------- the command

  /** A buffer from malloc, by the order of allocation. */
  datatype Block = Block(no: nat, bytes: seq<byte>)

  function Numbers(n: nat): (s: seq<nat>)
    ensures |s| == n
  {
    if n == 0 then [] else Numbers(n - 1) + [n - 1]
  }

  function BytesOf(s: seq<Option<Block>>): (r: seq<seq<byte>>)
    ensures |r| == |s|
  {
    if s == [] then []
    else
      var last := s[|s| - 1];
      BytesOf(s[..|s| - 1]) + [if last.Some? then last.value.bytes else []]
  }

  /** How an event ends: in the netlink loop again, or in one of two accesses that C leaves undefined. */
  datatype Return = Back | NullPointer | BehindArray

  class RttCommand {
    var completed: u32
    var currentIdx: nat
    var totalCnt: nat
    const rttResults: array<Option<Block>>

    /** What the command has had from malloc, given to free, and handed to the client. */
    var mallocs: nat
    var freed: seq<nat>
    var given: seq<seq<seq<byte>>>

    /** Both counters are the number of buffers held; and every buffer there has been is either held, at its place in
        the order of allocation, or has been freed once. */
    predicate Valid()
      reads this, rttResults
    {
      && rttResults.Length == MAX_RESULTS
      && currentIdx == totalCnt <= MAX_RESULTS
      && mallocs == |freed| + currentIdx && freed == Numbers(|freed|)
      && forall i :: 0 <= i < currentIdx ==> rttResults[i].Some? && rttResults[i].value.no == |freed| + i
    }

    function Held(): (s: seq<seq<byte>>)
      requires Valid()
      reads this, rttResults
      ensures |s| == currentIdx
    {
      BytesOf(rttResults[..currentIdx])
    }

    function Lived(): History
      requires Valid()
      reads this, rttResults
    {
      History(Held(), completed, given)
    }

    constructor ()
      ensures Valid() && Lived() == BEGINNING && mallocs == 0
    {
      rttResults := new Option<Block>[MAX_RESULTS](_ => None);
      completed, currentIdx, totalCnt := 0, 0, 0;
      mallocs, freed, given := 0, [], [];
    }

    /** Copies a result into a new buffer. */
    method StoreResult(m: Memory, a: Located)
      requires Valid() && currentIdx < MAX_RESULTS
      modifies this`currentIdx, this`totalCnt, this`mallocs, rttResults
      ensures Valid() && Held() == old(Held()) + [Read(m, a.data, a.len)]
    {
      ghost var before := rttResults[..currentIdx];
      var block := Some(Block(mallocs, Read(m, a.data, a.len)));
      mallocs := mallocs + 1;
      rttResults[currentIdx] := block;
      totalCnt := totalCnt + 1;
      currentIdx := currentIdx + 1;
      assert rttResults[..currentIdx] == before + [block];
    }

    /** A result: stored, or the end of its target if there is no memory. The array is written in either case; with
        all its places taken, behind its end. */
    method TakeAttribute(e: Event, a: Located) returns (fits: bool, goOn: bool)
      requires Valid()
      modifies this`currentIdx, this`totalCnt, this`mallocs, this`completed, rttResults
      ensures fits <==> (IsResult(a) ==> |old(Held())| < MAX_RESULTS)
      ensures fits ==> Valid() && Held() == old(Held()) + Brought(e, a) && (goOn <==> !Refused(e, a))
      ensures fits ==> completed == if goOn then old(completed) else 1
    {
      assert Held() + [] == Held();
      fits, goOn := true, true;
      if a.kind == RTT_ATTRIBUTE_RESULT {
        if currentIdx == MAX_RESULTS {
          return false, false;
        }
        if a.data in e.refused {
          ghost var before := rttResults[..currentIdx];
          rttResults[currentIdx] := None;
          completed := 1;
          assert rttResults[..currentIdx] == before;
          return true, false;
        }
        StoreResult(e.m, a);
      }
    }

    /** The attributes of one target. */
    method HandleTarget(e: Event, target: Located) returns (fits: bool)
      requires Valid()
      modifies this`currentIdx, this`totalCnt, this`mallocs, this`completed, rttResults
      ensures fits <==> Fit(old(Held()), TargetPlaces(e, Inside(e.m, target)))
      ensures fits ==> Valid() && Held() == old(Held()) + OfTarget(e, Inside(e.m, target))
      ensures fits ==> completed == if RunsOut(e, Inside(e.m, target)) then 1 else old(completed)
    {
      var it := new NlIterator(e.m, target);
      ghost var w, held := it.Rest(), Held();
      ghost var all, out := held + OfTarget(e, w), RunsOut(e, w);
      var more := it.HasNext();
      while more
        invariant Valid() && it.mem == e.m && completed == old(completed)
        invariant w == it.Rest() && held == Held() && (more <==> w != [])
        invariant held + OfTarget(e, w) == all && RunsOut(e, w) == out
        decreases |w|
      {
        TargetUnfolds(e, w, held);
        var a := it.Get();
        var goOn;
        fits, goOn := TakeAttribute(e, a);
        if !fits || !goOn {
          return;
        }
        it.Next();
        w, held := w[1..], Held();
        more := it.HasNext();
      }
      assert held + [] == held;
      fits := true;
    }

    /** Frees what is held and forgets it. */
    method FreeResults()
      requires Valid()
      modifies this`currentIdx, this`totalCnt, this`freed, rttResults
      ensures Valid() && Held() == [] && |freed| == mallocs
    {
      var i := 0;
      ghost var n := |freed|;
      while i < currentIdx
        invariant 0 <= i <= currentIdx && rttResults.Length == MAX_RESULTS
        invariant currentIdx == old(currentIdx) && freed == Numbers(n + i)
        invariant forall j :: i <= j < currentIdx ==> rttResults[j].Some? && rttResults[j].value.no == n + j
      {
        freed := freed + [rttResults[i].value.no];
        rttResults[i] := None;
        i := i + 1;
      }
      totalCnt, currentIdx := 0, 0;
    }

    method HandleAttribute(e: Event, a: Located) returns (fits: bool)
      requires Valid()
      modifies this`currentIdx, this`totalCnt, this`mallocs, this`completed, rttResults
      ensures fits <==> Fit(old(Held()), AttributePlaces(e, a))
      ensures fits ==> Valid() && Held() == old(Held()) + OfAttribute(e, a)
      ensures fits ==> completed == FlagOf(e, a, old(completed))
    {
      assert Held() + [] == Held();
      fits := true;
      if a.kind == RTT_ATTRIBUTE_RESULTS_COMPLETE {
        completed := Word32(e.m, a.data);
      } else if a.kind == RTT_ATTRIBUTE_RESULTS_PER_TARGET {
        fits := HandleTarget(e, a);
      }
    }

    /** The attributes of an event. */
    method Gather(e: Event) returns (fits: bool)
      requires Valid() && e.data.Some?
      modifies this`currentIdx, this`totalCnt, this`mallocs, this`completed, rttResults
      ensures fits <==> Fit(old(Held()), Places(e, e.Attributes()))
      ensures fits ==> Valid() && Held() == old(Held()) + Payloads(e)
      ensures fits ==> completed == Flag(e, e.Attributes(), old(completed))
    {
      var it := new NlIterator(e.m, e.data.value);
      ghost var w, held := it.Rest(), Held();
      ghost var all, flag := held + OfEvent(e, w), Flag(e, w, completed);
      ghost var enough := Fit(held, Places(e, w));
      var more := it.HasNext();
      while more
        invariant Valid() && it.mem == e.m
        invariant w == it.Rest() && held == Held() && (more <==> w != [])
        invariant held + OfEvent(e, w) == all && Flag(e, w, completed) == flag
        invariant enough <==> Fit(held, Places(e, w))
        decreases |w|
      {
        EventUnfolds(e, w, held, completed);
        var a := it.Get();
        fits := HandleAttribute(e, a);
        if !fits {
          return;
        }
        it.Next();
        w, held := w[1..], Held();
        more := it.HasNext();
      }
      assert held + [] == held;
      fits := true;
    }

    /** The handler comes back, unless it looks for attributes at a null pointer, when the event has no vendor data, or
        writes behind its array, exactly when those held and the places that the event takes are more than there
        are. */
    method HandleEvent(e: Event) returns (result: Return)
      requires Valid()
      modifies this, rttResults
      ensures result == if e.data.None? then NullPointer
                        else if |old(Held())| + Places(e, e.Attributes()) > MAX_RESULTS then BehindArray
                        else Back
      ensures result.Back? ==> Valid() && Lived() == After(old(Lived()), e) && (completed != 0 ==> |freed| == mallocs)
    {
      if e.data.None? {
        return NullPointer;
      }
      var fits := Gather(e);
      if !fits {
        return BehindArray;
      }
      if completed != 0 {
        given := given + [BytesOf(rttResults[..totalCnt])];
        FreeResults();
      }
      return Back;
    }
  }

  lemma TargetUnfolds(e: Event, w: seq<Located>, held: seq<seq<byte>>)
    requires w != []
    ensures IsResult(w[0]) ==> OfTarget(e, w) != [] || RunsOut(e, w)
    ensures if Refused(e, w[0]) then held + Brought(e, w[0]) == held + OfTarget(e, w) && RunsOut(e, w)
            else
              && (held + Brought(e, w[0])) + OfTarget(e, w[1..]) == held + OfTarget(e, w)
              && (RunsOut(e, w) <==> RunsOut(e, w[1..]))
  {
    Assoc(held, Brought(e, w[0]), OfTarget(e, w[1..]));
  }

  predicate Fit(held: seq<seq<byte>>, places: nat) { |held| + places <= MAX_RESULTS }

  lemma EventUnfolds(e: Event, w: seq<Located>, held: seq<seq<byte>>, flag: u32)
    requires w != []
    ensures var held' := held + OfAttribute(e, w[0]);
            && held' + OfEvent(e, w[1..]) == held + OfEvent(e, w)
            && (Fit(held, Places(e, w)) <==> Fit(held, AttributePlaces(e, w[0])) && Fit(held', Places(e, w[1..])))
    ensures Flag(e, w, flag) == Flag(e, w[1..], FlagOf(e, w[0], flag))
  {
    Assoc(held, OfAttribute(e, w[0]), OfEvent(e, w[1..]));
  }
}
