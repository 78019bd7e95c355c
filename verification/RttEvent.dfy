/** Ranging events, as a driver writes them, and what the client's command makes of them. */
module RttEvent {
  import opened Bytes
  import opened Netlink
  import opened Rtt

  // ---------------------------------------------------------------- the results of a target

  function Results(w: seq<Located>): seq<Located> {
    if w == [] then [] else (if IsResult(w[0]) then [w[0]] else []) + Results(w[1..])
  }

  /** Of a target's results those are stored that come before the first there is no memory for; and the target runs out
      of memory exactly when there is such a one. */
  lemma {:induction false} StoredUpToFirstRefused(e: Event, w: seq<Located>)
    ensures |OfTarget(e, w)| <= |Results(w)|
    ensures forall j :: 0 <= j < |OfTarget(e, w)| ==>
              Results(w)[j].data !in e.refused && OfTarget(e, w)[j] == Read(e.m, Results(w)[j].data, Results(w)[j].len)
    ensures RunsOut(e, w) <==> |OfTarget(e, w)| < |Results(w)|
    ensures |OfTarget(e, w)| < |Results(w)| ==> Results(w)[|OfTarget(e, w)|].data in e.refused
  {
    if w == [] {
    } else {
      StoredUpToFirstRefused(e, w[1..]);
      if IsResult(w[0]) {
        var rest, all := Results(w[1..]), Results(w);
        assert all == [w[0]] + rest;
        if w[0].data !in e.refused {
          var stored := OfTarget(e, w[1..]);
          assert OfTarget(e, w) == [Read(e.m, w[0].data, w[0].len)] + stored;
          forall j | 0 <= j < |OfTarget(e, w)|
            ensures all[j].data !in e.refused && OfTarget(e, w)[j] == Read(e.m, all[j].data, all[j].len)
          {
            assert j > 0 ==> all[j] == rest[j - 1] && OfTarget(e, w)[j] == stored[j - 1];
          }
        }
      } else {
        assert [] + Results(w[1..]) == Results(w[1..]);
      }
    }
  }

  /** The attribute has a say in the completion flag. */
  predicate Decides(e: Event, a: Located) {
    a.kind == RTT_ATTRIBUTE_RESULTS_COMPLETE || (OnTarget(a) && RunsOut(e, Inside(e.m, a)))
  }

  /** The last attribute that has a say decides: the driver by the number it gives, and a target that runs out of
      memory by completing. */
  lemma {:induction false} LastDecides(e: Event, w: seq<Located>, before: u32, k: nat)
    requires k <= |w| && forall j :: k <= j < |w| ==> !Decides(e, w[j])
    requires k > 0 ==> Decides(e, w[k - 1])
    ensures Flag(e, w, before)
         == if k == 0 then before
            else if w[k - 1].kind == RTT_ATTRIBUTE_RESULTS_COMPLETE then Word32(e.m, w[k - 1].data) else 1
    decreases |w|
  {
    if w == [] {
    } else if k == 0 {
      assert !Decides(e, w[0]);
      LastDecides(e, w[1..], before, 0);
    } else {
      assert k > 1 ==> w[1..][k - 2] == w[k - 1];
      LastDecides(e, w[1..], FlagOf(e, w[0], before), k - 1);
    }
  }

  // ---------------------------------------------------------------- events

  /** What an event is made of: targets, each with its attributes, and the completion flag. */
  datatype Item = Target(inner: seq<Attr>) | Complete(flag: u32) {
    predicate Good() { Target? ==> AllFit(inner) && Fits(Nest(RTT_ATTRIBUTE_RESULTS_PER_TARGET, inner)) }

    function Attribute(): Attr {
      match this
      case Target(inner) => Nest(RTT_ATTRIBUTE_RESULTS_PER_TARGET, inner)
      case Complete(flag) => Word(RTT_ATTRIBUTE_RESULTS_COMPLETE, flag)
    }
  }

  function Attributes(items: seq<Item>): (s: seq<Attr>)
    ensures |s| == |items|
  {
    if items == [] then [] else [items[0].Attribute()] + Attributes(items[1..])
  }

  lemma {:induction false} AttributesFit(items: seq<Item>)
    requires forall i :: i in items ==> i.Good()
    ensures AllFit(Attributes(items))
  {
    if items == [] {
    } else {
      AttributesFit(items[1..]);
      assert items[0] in items;
    }
  }

  /** The payloads of the results among the attributes. */
  function Written(inner: seq<Attr>): seq<seq<byte>> {
    if inner == [] then []
    else (if inner[0].kind == RTT_ATTRIBUTE_RESULT then [Payload(inner[0])] else []) + Written(inner[1..])
  }

  function AllWritten(items: seq<Item>): seq<seq<byte>> {
    if items == [] then []
    else (if items[0].Target? then Written(items[0].inner) else []) + AllWritten(items[1..])
  }

  function LastFlag(items: seq<Item>, before: u32): u32 {
    if items == [] then before else LastFlag(items[1..], if items[0].Complete? then items[0].flag else before)
  }

  lemma RestIsShown(m: Memory, w: seq<Located>, s: seq<Attr>)
    requires AllShown(m, w, s) && s != []
    ensures AllShown(m, w[1..], s[1..])
  {
    forall i | 0 <= i < |s[1..]| ensures Shown(m, w[1..][i], s[1..][i]) {
      assert Shown(m, w[i + 1], s[i + 1]);
    }
  }

  lemma {:induction false} TargetIsHeard(e: Event, w: seq<Located>, inner: seq<Attr>)
    requires e.refused == {} && AllShown(e.m, w, inner)
    ensures OfTarget(e, w) == Written(inner) && !RunsOut(e, w)
    decreases |inner|
  {
    if inner == [] {
    } else {
      assert Shown(e.m, w[0], inner[0]);
      RestIsShown(e.m, w, inner);
      TargetIsHeard(e, w[1..], inner[1..]);
      var p := Payload(inner[0]);
      HoldsRead(e.m, w[0].data, p, 0, |p|);
      assert p[0..0 + |p|] == p;
    }
  }

  lemma {:induction false} ItemsAreHeard(e: Event, w: seq<Located>, items: seq<Item>, before: u32)
    requires e.refused == {} && (forall i :: i in items ==> i.Good()) && AllShown(e.m, w, Attributes(items))
    ensures OfEvent(e, w) == AllWritten(items) && Flag(e, w, before) == LastFlag(items, before)
    decreases |items|
  {
    if items == [] {
    } else {
      var s := Attributes(items);
      assert Shown(e.m, w[0], s[0]) && items[0] in items;
      assert s[1..] == Attributes(items[1..]);
      RestIsShown(e.m, w, s);
      match items[0]
      case Target(inner) =>
        assert Payload(s[0]) == EncodeAll(inner);
        WalkFindsEncoded(e.m, w[0].data, inner);
        TargetIsHeard(e, Inside(e.m, w[0]), inner);
        ItemsAreHeard(e, w[1..], items[1..], before);
      case Complete(flag) =>
        HoldsWord32(e.m, w[0].data, flag);
        ItemsAreHeard(e, w[1..], items[1..], flag);
    }
  }

  /** An event that a driver has written from targets and completion flags brings, when there is memory for all, the
      payloads of all their results, in order, and the last of the flags. */
  lemma EventRoundTrip(e: Event, items: seq<Item>, before: u32)
    requires e.refused == {} && e.data.Some? && forall i :: i in items ==> i.Good()
    requires e.data.value.len == |EncodeAll(Attributes(items))|
    requires Holds(e.m, e.data.value.data, EncodeAll(Attributes(items)))
    ensures Payloads(e) == AllWritten(items) && Flag(e, e.Attributes(), before) == LastFlag(items, before)
  {
    AttributesFit(items);
    WalkFindsEncoded(e.m, e.data.value.data, Attributes(items));
    ItemsAreHeard(e, e.Attributes(), items, before);
  }
}
