/** Proxy ownership and the offer cache, over every trace of events, drains and restores. */
module Ownership {
  import opened Config
  import opened Seqs
  import opened Mimes
  import opened Contents
  import opened Histories
  import opened Drains
  import opened Wire
  import opened AppStates
  import opened EventLoops

  function Seen(a: App): Monitor {
    Watch(START, a.trace)
  }

  /** The daemon's slots agree with what the monitor saw: the owned source is the one live source and
      the selected one, and was not cancelled; the selected offer is the one live offer that was ever
      selected; and every cached offer belongs to a live offer. */
  ghost predicate Agree(a: App, m: Monitor) {
    && m.ok
    && m.live == (if a.source.Some? then {a.source.value} else {})
    && (forall s :: s in m.created ==> s < a.nextSource)
    && m.cancelled <= m.created && m.cancelled !! m.live
    && (a.source.Some? ==> m.selected == a.source)
    && (m.selected.Some? ==> m.selected.value in m.created)
    && a.selection == m.lastSelected
    && m.everSelected * m.liveOffers == (if a.selection.Some? then {a.selection.value} else {})
    && m.everSelected <= m.announced && m.liveOffers <= m.announced
    && (forall o, p :: o in m.liveOffers && p in m.liveOffers && o.pid == p.pid ==> o == p)
    && (forall id :: id in a.offers ==> exists o :: o in m.liveOffers && o.pid == id)
  }

  ghost predicate AppOk(a: App) {
    Seen(a).fair ==> Agree(a, Seen(a))
  }

  lemma Step(a: App, b: App, i: Item)
    requires b.trace == a.trace + [i]
    ensures Seen(b) == Observe(Seen(a), i)
  {
    WatchOne(START, a.trace, i);
  }

  /** Dropping the selection after the monitor saw another one (or none). */
  lemma ClearKeeps(a: App, before: Monitor, event: Item)
    requires Agree(a, before) && before.fair
    requires match event
             case Selection(s) => s != a.selection && (s.Some? ==> s.value in before.liveOffers)
             case Finished => true
             case _ => false
    requires Seen(a) == Observe(before, event)
    ensures var b, m := ClearSelection(a), Seen(ClearSelection(a));
            && m.fair && m.lastSelected == (if event.Selection? then event.selected else None)
            && (event.Selection? && event.selected.Some? ==> event.selected.value in m.liveOffers)
            && Agree(b.(selection := m.lastSelected), m)
  {
    var b := ClearSelection(a);
    if a.selection.Some? {
      Step(a, b, DestroyOffer(a.selection.value));
    }
  }

  lemma AttemptKeeps(a: App, b: App, o: Offer, m: Mime, more: seq<Read>)
    requires Agree(a, Seen(a)) && Seen(a).fair && a.selection == Some(o) && o in Seen(a).liveOffers
    requires b == a.(trace := b.trace, pending := a.pending + more)
    requires b.trace == a.trace + [Receive(o, m)] || b.trace == a.trace + []
    ensures Agree(b, Seen(b)) && Seen(b).fair && o in Seen(b).liveOffers
  {
    assert a.trace + [] == a.trace;
    if b.trace != a.trace {
      Step(a, b, Receive(o, m));
    }
  }

  lemma {:induction false} RequestKeeps(a: App, o: Offer, mimes: seq<Mime>, answers: Answers)
    requires Agree(a, Seen(a)) && Seen(a).fair && a.selection == Some(o) && o in Seen(a).liveOffers
    ensures var b := RequestAll(a, o, mimes, answers);
            Agree(b, Seen(b)) && Seen(b).fair && b.selection == Some(o) && o in Seen(b).liveOffers
  {
    if mimes != [] {
      var front, m := mimes[..|mimes| - 1], mimes[|mimes| - 1];
      RequestKeeps(a, o, front, answers);
      AttemptKeeps(RequestAll(a, o, front, answers), RequestAll(a, o, mimes, answers), o, m,
                   Queue(o.pid, m, AttemptFor(answers, m)));
    }
  }

  /** The slots after a selection event, before any data is requested. */
  function Switched(a: App, s: Option<Offer>): App {
    var a1 := a.(trace := a.trace + [Selection(s)]);
    if s == a.selection then a1 else ClearSelection(a1).(selection := s)
  }

  lemma SwitchKeeps(a: App, s: Option<Offer>)
    requires AppOk(a) && Seen(a).fair && (s.Some? ==> s.value in Seen(a).liveOffers)
    ensures var c := Switched(a, s);
            Agree(c, Seen(c)) && Seen(c).fair && (s.Some? ==> s.value in Seen(c).liveOffers)
  {
    var a1 := a.(trace := a.trace + [Selection(s)]);
    Step(a, a1, Selection(s));
    if s != a.selection {
      ClearKeeps(a1, Seen(a), Selection(s));
    } else if s.Some? {
      assert s.value in Seen(a).everSelected * Seen(a).liveOffers;
    }
  }

  lemma HandleSwitches(a: App, s: Option<Offer>, answers: Answers)
    ensures var c := Switched(a, s);
            Handle(a, Event(Selection(s), answers)) ==
            if s.Some? && s.value.pid in c.offers
            then RequestAll(c, s.value, Pick(c.offers[s.value.pid]), answers) else c
  {
  }

  lemma SelectionKeeps(a: App, s: Option<Offer>, answers: Answers)
    requires AppOk(a) && Seen(a).fair && (s.Some? ==> s.value in Seen(a).liveOffers)
    ensures var b := Handle(a, Event(Selection(s), answers)); Agree(b, Seen(b))
  {
    SwitchKeeps(a, s);
    HandleSwitches(a, s, answers);
    var c := Switched(a, s);
    if s.Some? && s.value.pid in c.offers {
      RequestKeeps(c, s.value, Pick(c.offers[s.value.pid]), answers);
    }
  }

  lemma OfferKeeps(a: App, e: Event)
    requires AppOk(a) && Seen(a).fair && FairEvent(Seen(a), e.item)
    requires e.item.DataOffer? || e.item.OfferMime?
    ensures var b := Handle(a, e); Agree(b, Seen(b))
  {
    var b, m := Handle(a, e), Seen(a);
    Step(a, b, e.item);
    var o := e.item.offer;
    assert o in Seen(b).liveOffers;
    forall id | id in b.offers ensures exists p :: p in Seen(b).liveOffers && p.pid == id {
      if id != o.pid {
        var p :| p in m.liveOffers && p.pid == id;
      }
    }
  }

  lemma FairEventKeeps(a: App, e: Event)
    requires AppOk(a) && Seen(a).fair && FairEvent(Seen(a), e.item)
    ensures var b := Handle(a, e); Agree(b, Seen(b))
  {
    if e.item.DataOffer? || e.item.OfferMime? {
      OfferKeeps(a, e);
    } else if e.item.Selection? {
      SelectionKeeps(a, e.item.selected, e.answers);
    } else {
      OtherKeeps(a, e);
    }
  }

  lemma OtherKeeps(a: App, e: Event)
    requires AppOk(a) && Seen(a).fair && (e.item.Finished? || e.item.PrimarySelection? || e.item.Cancelled?)
    requires FairEvent(Seen(a), e.item)
    ensures var b := Handle(a, e); Agree(b, Seen(b))
  {
    var a1, b := a.(trace := a.trace + [e.item]), Handle(a, e);
    Step(a, a1, e.item);
    if e.item.Finished? {
      ClearKeeps(a1.(device := false), Seen(a), Finished);
    } else if e.item.Cancelled? && a.source == Some(e.item.source) {
      Step(a1, b, DestroySource(e.item.source));
    }
  }

  /** Every event keeps the agreement. */
  lemma HandleKeeps(a: App, e: Event)
    requires AppOk(a)
    ensures AppOk(Handle(a, e))
  {
    var a1, b := a.(trace := a.trace + [e.item]), Handle(a, e);
    TraceGrows(a, e);
    if Seen(b).fair {
      Step(a, a1, e.item);
      assert b.trace == a1.trace + b.trace[|a1.trace|..];
      FairBefore(a1.trace, b.trace[|a1.trace|..]);
      FairEventKeeps(a, e);
    }
  }

  lemma {:induction false} RequestGrows(a: App, o: Offer, mimes: seq<Mime>, answers: Answers)
    ensures a.trace <= RequestAll(a, o, mimes, answers).trace
  {
    if mimes != [] {
      RequestGrows(a, o, mimes[..|mimes| - 1], answers);
    }
  }

  lemma TraceGrows(a: App, e: Event)
    ensures a.trace + [e.item] <= Handle(a, e).trace
  {
    if e.item.Selection? && e.item.selected.Some? {
      var o := e.item.selected.value;
      var a1 := a.(trace := a.trace + [e.item]);
      var b := if a1.selection.Some? && a1.selection.value != o then ClearSelection(a1) else a1;
      var c := b.(selection := Some(o));
      assert a1.trace <= c.trace;
      if o.pid in c.offers {
        RequestGrows(c, o, Pick(c.offers[o.pid]), e.answers);
      }
    }
  }

  lemma {:induction false} FairBefore(items: seq<Item>, more: seq<Item>)
    requires Watch(START, items + more).fair
    ensures Watch(START, items).fair
  {
    if more == [] {
      assert items + more == items;
    } else {
      assert (items + more)[..|items + more| - 1] == items + more[..|more| - 1];
      FairBefore(items, more[..|more| - 1]);
    }
  }

  lemma DrainKeeps(utf8: Decoder, o: Oracle, a: App)
    requires AppOk(a) && ValidOracle(o)
    ensures AppOk(Drain(utf8, o, a).0)
  {
  }

  lemma {:induction false} OffersKeep(m: Monitor, s: SourceId, mimes: seq<Mime>)
    requires s in m.live && m.selected != Some(s)
    ensures Watch(m, SourceOffers(s, mimes)) == m
  {
    if mimes != [] {
      OffersKeep(m, s, mimes[..|mimes| - 1]);
      WatchOne(m, SourceOffers(s, mimes[..|mimes| - 1]), SourceOffer(s, mimes[|mimes| - 1]));
    }
  }

  /** What the monitor makes of the requests of one restore. */
  lemma RestoreObserved(m: Monitor, s: SourceId, contents: Blobs, order: seq<Mime>, previous: Option<SourceId>)
    requires s !in m.created && m.selected != Some(s)
    requires previous.Some? ==> previous.value in m.live && previous.value != s
    ensures Watch(m, RestoreRequests(s, contents, order, previous)) ==
            m.(created := m.created + {s}, selected := Some(s),
               live := m.live + {s} - if previous.Some? then {previous.value} else {})
  {
    var m1 := m.(created := m.created + {s}, live := m.live + {s});
    var a, b := [CreateSource(s, contents)], SourceOffers(s, order);
    WatchOne(m, [], CreateSource(s, contents));
    assert [] + a == a && Watch(m, a) == m1;
    OffersKeep(m1, s, order);
    WatchAppend(m, a, b);
    WatchOne(m, a + b, SetSelection(s));
    if previous.Some? {
      WatchOne(m, a + b + [SetSelection(s)], DestroySource(previous.value));
    } else {
      assert a + b + [SetSelection(s)] + [] == a + b + [SetSelection(s)];
    }
  }

  lemma AgreeAfterRestore(a: App, b: App, m: Monitor, contents: Blobs, order: seq<Mime>)
    requires Agree(a, m)
    requires b == a.(source := Some(a.nextSource), nextSource := a.nextSource + 1, trace := b.trace)
    ensures Agree(b, Watch(m, RestoreRequests(a.nextSource, contents, order, a.source)))
  {
    RestoreObserved(m, a.nextSource, contents, order, a.source);
  }

  lemma RestoreKeeps(o: Oracle, a: App, id: nat)
    requires AppOk(a) && ValidOracle(o)
    ensures AppOk(Restore(o, a, id).0)
    ensures Restore(o, a, id).1 != Restored ==> Restore(o, a, id).0 == a
  {
    var (b, r) := Restore(o, a, id);
    if r == Restored && Seen(b).fair {
      var c := PublishedFor(o, Find(a.history.entries, id).value.content);
      var order := o.hash(1, c.Keys);
      var requests := RestoreRequests(a.nextSource, c, order, a.source);
      FairBefore(a.trace, requests);
      WatchAppend(START, a.trace, requests);
      AgreeAfterRestore(a, b, Seen(a), c, order);
    }
  }

  // ---- What the agreement means ----

  /** Every source ever created is the owned one or was destroyed exactly once; every offer ever
      selected is the current selection or was destroyed exactly once. */
  lemma OwnedOrDestroyedOnce(a: App, s: SourceId, o: Offer)
    requires AppOk(a) && Seen(a).fair
    ensures s in Seen(a).created ==>
              Destroyed(a.trace, DestroySource(s)) == if a.source == Some(s) then 0 else 1
    ensures o in Seen(a).everSelected ==>
              Destroyed(a.trace, DestroyOffer(o)) == if a.selection == Some(o) then 0 else 1
  {
    DestroyedOnce(a.trace, s, o);
    assert o in Seen(a).everSelected ==> (o in Seen(a).liveOffers <==> o in Seen(a).everSelected * Seen(a).liveOffers);
  }

  /** A source that was cancelled is not owned any more and was destroyed, exactly once. */
  lemma CancelledIsDestroyed(a: App, s: SourceId)
    requires AppOk(a) && Seen(a).fair && s in Seen(a).cancelled
    ensures s in Seen(a).created && s !in Seen(a).live && a.source != Some(s)
    ensures Destroyed(a.trace, DestroySource(s)) == 1
  {
    OwnedOrDestroyedOnce(a, s, Offer(0, 0));
  }

  /** A cached offer that was ever selected is the current selection. */
  lemma CachedIsCurrent(a: App, id: nat, o: Offer)
    requires AppOk(a) && Seen(a).fair
    requires id in a.offers && o.pid == id && o in Seen(a).liveOffers && o in Seen(a).everSelected
    ensures a.selection == Some(o)
  {
    assert o in Seen(a).everSelected * Seen(a).liveOffers;
  }

  /** After a drain the queue is empty and no offer that delivered bytes is cached. */
  lemma DrainClearsCache(utf8: Decoder, o: Oracle, a: App, id: nat)
    requires ValidOracle(o)
    ensures var b := Drain(utf8, o, a).0;
            && b.pending == []
            && ((exists r :: r in a.pending && Delivers(r, id)) ==> id !in b.offers)
            && (!(exists r :: r in a.pending && Delivers(r, id)) ==>
                  (id in b.offers <==> id in a.offers) && (id in a.offers ==> b.offers[id] == a.offers[id]))
  {
    GatherOk(a.pending);
    GatherGroups(a.pending, id, PLAIN);
  }

  // ---- Whole runs ----

  lemma {:induction false} HandleAllKeeps(a: App, events: seq<Event>)
    requires AppOk(a)
    ensures AppOk(HandleAll(a, events))
  {
    if events != [] {
      HandleAllKeeps(a, events[..|events| - 1]);
      HandleKeeps(HandleAll(a, events[..|events| - 1]), events[|events| - 1]);
    }
  }

  lemma {:induction false} ExamineAllKeepsProxies(env: Env, s: Loop, ids: seq<nat>)
    ensures var a, b := s.app, ExamineAll(env, s, ids).app;
            b == a.(history := b.history)
  {
    if ids != [] {
      ExamineAllKeepsProxies(env, s, ids[..|ids| - 1]);
    }
  }

  lemma {:induction false} ServeAllOwns(env: Env, s: Loop, requests: seq<Request>)
    requires AppOk(s.app) && forall r :: r in requests ==> ValidOracle(r.oracle)
    ensures AppOk(ServeAll(env, s, requests).app)
  {
    if requests != [] {
      var front, r := requests[..|requests| - 1], requests[|requests| - 1];
      ServeAllOwns(env, s, front);
      RestoreKeeps(r.oracle, ServeAll(env, s, front).app, r.entryId);
    }
  }

  /** Over every run, the daemon uses and destroys its proxies as the protocol demands, as long as the
      compositor is fair. */
  lemma {:induction false} RunOwns(env: Env, inputs: seq<Input>)
    requires forall i :: i in inputs ==> ValidInput(i)
    ensures AppOk(RunLoop(env, BOOT, inputs).app)
  {
    if inputs == [] {
      assert Seen(BOOT.app) == START;
    } else {
      var s, i := RunLoop(env, BOOT, inputs[..|inputs| - 1]), inputs[|inputs| - 1];
      assert ValidInput(i);
      RunOwns(env, inputs[..|inputs| - 1]);
      HandleAllKeeps(s.app, i.events);
      DrainKeeps(env.utf8, i.oracle, HandleAll(s.app, i.events));
      var (s1, outcomes) := Collect(env, s, i);
      ExamineAllKeepsProxies(env, s1, StoredIds(outcomes));
      ServeAllOwns(env, ExamineAll(env, s1, StoredIds(outcomes)), i.requests);
    }
  }
}
