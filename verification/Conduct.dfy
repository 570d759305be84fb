/** What the daemon asks of the compositor, over every run: which types it requests, what it offers with
    a source, and when a restore succeeds. */
module Conducts {
  import opened Config
  import opened Seqs
  import opened Mimes
  import opened Contents
  import opened Histories
  import opened Drains
  import opened Wire
  import opened AppStates
  import opened EventLoops
  import opened Ownership
  import opened Batches

  // ---- Types requested ----

  function HasPipe(answers: Answers): Mime -> bool {
    m => !AttemptFor(answers, m).NoPipe?
  }

  function AsReceive(o: Offer): Mime -> Item {
    m => Receive(o, m)
  }

  /** One request for each type, in order, unless no pipe could be created for it. */
  lemma {:induction false} RequestsMade(a: App, o: Offer, mimes: seq<Mime>, answers: Answers)
    ensures RequestAll(a, o, mimes, answers).trace == a.trace + Map(AsReceive(o), Filter(HasPipe(answers), mimes))
  {
    if mimes == [] {
      assert a.trace + [] == a.trace;
    } else {
      var n := |mimes| - 1;
      var front, m := mimes[..n], mimes[n];
      var made := Map(AsReceive(o), Filter(HasPipe(answers), front));
      RequestsMade(a, o, front, answers);
      FilterAppend(HasPipe(answers), front, m);
      assert mimes == front + [m];
      MapSnoc(AsReceive(o), Filter(HasPipe(answers), front), m);
      assert a.trace + made + [Receive(o, m)] == a.trace + (made + [Receive(o, m)]);
      assert a.trace + made + [] == a.trace + made;
    }
  }

  /** What a selection asks for: the types picked from the cached ones; nothing if the offer is unknown. */
  lemma SelectionAsks(a: App, o: Offer, answers: Answers)
    ensures var b := Switched(a, Some(o));
            var c := Handle(a, Event(Selection(Some(o)), answers));
            var picked := if o.pid in b.offers then Pick(b.offers[o.pid]) else [];
            && c.trace == b.trace + Map(AsReceive(o), Filter(HasPipe(answers), picked))
            && c.pending == a.pending + Queued(o.pid, picked, answers)
  {
    var b := Switched(a, Some(o));
    HandleSwitches(a, Some(o), answers);
    if o.pid in b.offers {
      RequestsMade(b, o, Pick(b.offers[o.pid]), answers);
      RequestOnlyQueues(b, o, Pick(b.offers[o.pid]), answers);
    } else {
      assert b.trace + [] == b.trace && a.pending + [] == a.pending;
    }
  }

  function Listing(o: Offer, mimes: seq<Mime>): seq<Event> {
    if mimes == [] then [] else Listing(o, mimes[..|mimes| - 1]) + [Event(OfferMime(o, mimes[|mimes| - 1]), map[])]
  }

  /** From `a` to `b` the types were added to those of the offer, and nothing else has changed. */
  ghost predicate Added(a: App, b: App, o: Offer, mimes: seq<Mime>) {
    && b == a.(offers := b.offers, trace := b.trace)
    && b.offers == a.offers[o.pid := (if o.pid in a.offers then a.offers[o.pid] else []) + mimes]
  }

  lemma AddsFirst(a: App, o: Offer, m: Mime)
    ensures Added(a, Handle(a, Event(OfferMime(o, m), map[])), o, [m])
  {
  }

  lemma AddsNext(a: App, b: App, o: Offer, front: seq<Mime>, m: Mime)
    requires Added(a, b, o, front)
    ensures Added(a, Handle(b, Event(OfferMime(o, m), map[])), o, front + [m])
  {
    var known := if o.pid in a.offers then a.offers[o.pid] else [];
    assert known + front + [m] == known + (front + [m]);
  }

  lemma ListingSnoc(a: App, o: Offer, front: seq<Mime>, m: Mime)
    ensures HandleAll(a, Listing(o, front + [m])) ==
            Handle(HandleAll(a, Listing(o, front)), Event(OfferMime(o, m), map[]))
  {
    var before, last := Listing(o, front), Event(OfferMime(o, m), map[]);
    assert (front + [m])[..|front|] == front;
    assert (before + [last])[..|before|] == before;
  }

  /** Types are cached in the order they are listed, also for an offer that was never introduced; other
      offers keep theirs. */
  lemma {:induction false} TypesAccumulate(a: App, o: Offer, mimes: seq<Mime>)
    requires mimes != []
    ensures Added(a, HandleAll(a, Listing(o, mimes)), o, mimes)
  {
    var n := |mimes| - 1;
    ListingSnoc(a, o, mimes[..n], mimes[n]);
    assert mimes == mimes[..n] + [mimes[n]];
    if n == 0 {
      AddsFirst(a, o, mimes[0]);
      assert mimes == [mimes[0]];
    } else {
      TypesAccumulate(a, o, mimes[..n]);
      AddsNext(a, HandleAll(a, Listing(o, mimes[..n])), o, mimes[..n], mimes[n]);
    }
  }

  /** Introducing an offer forgets the types of an earlier one with its protocol id, and nothing else. */
  lemma OfferIntroduced(a: App, o: Offer)
    ensures var b := Handle(a, Event(DataOffer(o), map[]));
            && b == a.(offers := b.offers, trace := a.trace + [DataOffer(o)])
            && b.offers == a.offers[o.pid := []]
  {
  }

  // ---- What an event adds to the trace ----

  predicate IsReaction(i: Item) {
    i.Receive? || i.DestroyOffer? || i.DestroySource?
  }

  lemma {:induction false} RequestTrace(a: App, o: Offer, mimes: seq<Mime>, answers: Answers) returns (more: seq<Item>)
    ensures RequestAll(a, o, mimes, answers).trace == a.trace + more && forall i :: i in more ==> IsReaction(i)
  {
    RequestsMade(a, o, mimes, answers);
    more := Map(AsReceive(o), Filter(HasPipe(answers), mimes));
    forall i | i in more ensures IsReaction(i) {
      var k :| 0 <= k < |more| && more[k] == i;
    }
  }

  lemma SwitchTrace(a: App, s: Option<Offer>) returns (more: seq<Item>)
    ensures Switched(a, s).trace == a.trace + [Selection(s)] + more && forall i :: i in more ==> IsReaction(i)
  {
    more := if s != a.selection && a.selection.Some? then [DestroyOffer(a.selection.value)] else [];
    assert a.trace + [Selection(s)] + [] == a.trace + [Selection(s)];
  }

  lemma SelectionTrace(a: App, s: Option<Offer>, answers: Answers) returns (more: seq<Item>)
    ensures Handle(a, Event(Selection(s), answers)).trace == a.trace + [Selection(s)] + more
    ensures forall i :: i in more ==> IsReaction(i)
  {
    var c := Switched(a, s);
    HandleSwitches(a, s, answers);
    more := SwitchTrace(a, s);
    if s.Some? && s.value.pid in c.offers {
      var asked := RequestTrace(c, s.value, Pick(c.offers[s.value.pid]), answers);
      assert a.trace + [Selection(s)] + more + asked == a.trace + [Selection(s)] + (more + asked);
      more := more + asked;
    }
  }

  lemma HandleTrace(a: App, e: Event) returns (more: seq<Item>)
    ensures Handle(a, e).trace == a.trace + [e.item] + more && forall i :: i in more ==> IsReaction(i)
  {
    if e.item.Selection? {
      assert e == Event(Selection(e.item.selected), e.answers);
      more := SelectionTrace(a, e.item.selected, e.answers);
    } else {
      more := OtherTrace(a, e);
    }
  }

  lemma OtherTrace(a: App, e: Event) returns (more: seq<Item>)
    requires !e.item.Selection?
    ensures Handle(a, e).trace == a.trace + [e.item] + more && forall i :: i in more ==> IsReaction(i)
  {
    more := if e.item.Finished? && a.selection.Some? then [DestroyOffer(a.selection.value)]
            else if e.item.Cancelled? && a.source == Some(e.item.source) then [DestroySource(e.item.source)]
            else [];
    assert a.trace + [e.item] + [] == a.trace + [e.item];
  }

  // ---- Restores succeed until access is revoked ----

  /** The device is bound exactly until the compositor says `finished`. */
  ghost predicate DeviceOk(a: App) {
    a.manager && (a.device <==> Finished !in a.trace)
  }

  lemma HandleSlots(a: App, e: Event)
    ensures var b := Handle(a, e);
            b.manager == a.manager && b.device == (a.device && !e.item.Finished?) && b.nextSource == a.nextSource
  {
    if e.item.Selection? && e.item.selected.Some? {
      var o, c := e.item.selected.value, Switched(a, e.item.selected);
      HandleSwitches(a, e.item.selected, e.answers);
      assert e == Event(Selection(e.item.selected), e.answers);
      if o.pid in c.offers {
        RequestOnlyQueues(c, o, Pick(c.offers[o.pid]), e.answers);
      }
    }
  }

  lemma HandleDevice(a: App, e: Event)
    requires DeviceOk(a)
    ensures DeviceOk(Handle(a, e))
  {
    var more := HandleTrace(a, e);
    HandleSlots(a, e);
  }

  lemma {:induction false} SourceOffersOnly(s: SourceId, mimes: seq<Mime>)
    ensures forall i :: i in SourceOffers(s, mimes) ==> i.SourceOffer? && i.source == s
    ensures forall m :: multiset(SourceOffers(s, mimes))[SourceOffer(s, m)] == multiset(mimes)[m]
  {
    if mimes != [] {
      var front, last := mimes[..|mimes| - 1], mimes[|mimes| - 1];
      SourceOffersOnly(s, front);
      assert mimes == front + [last];
    }
  }

  predicate IsSourceItem(i: Item) {
    i.CreateSource? || i.SourceOffer? || i.SetSelection? || i.DestroySource?
  }

  lemma InThree<T>(a: seq<T>, b: seq<T>, c: seq<T>, x: T)
    ensures x in a + b + c <==> x in a || x in b || x in c
    ensures multiset(a + b + c)[x] == multiset(a)[x] + multiset(b)[x] + multiset(c)[x]
  {
    assert multiset(a + b + c) == multiset(a) + multiset(b) + multiset(c);
  }

  function AfterOffers(s: SourceId, previous: Option<SourceId>): seq<Item> {
    [SetSelection(s)] + if previous.Some? then [DestroySource(previous.value)] else []
  }

  lemma RestoreInThree(s: SourceId, contents: Blobs, order: seq<Mime>, previous: Option<SourceId>)
    ensures RestoreRequests(s, contents, order, previous) ==
            [CreateSource(s, contents)] + SourceOffers(s, order) + AfterOffers(s, previous)
    ensures forall i :: i in AfterOffers(s, previous) ==> i.SetSelection? || i.DestroySource?
  {
  }

  predicate ItemOf(i: Item, s: SourceId, contents: Blobs) {
    && IsSourceItem(i) && (i.CreateSource? ==> i == CreateSource(s, contents)) && (i.SourceOffer? ==> i.source == s)
  }

  lemma PartsAreItems(s: SourceId, contents: Blobs, offers: seq<Item>, rest: seq<Item>)
    requires forall i :: i in offers ==> i.SourceOffer? && i.source == s
    requires forall i :: i in rest ==> i.SetSelection? || i.DestroySource?
    ensures forall i :: i in [CreateSource(s, contents)] + offers + rest ==> ItemOf(i, s, contents)
  {
    forall i | i in [CreateSource(s, contents)] + offers + rest ensures ItemOf(i, s, contents) {
      InThree([CreateSource(s, contents)], offers, rest, i);
    }
  }

  lemma PartsCount(s: SourceId, contents: Blobs, offers: seq<Item>, rest: seq<Item>, m: Mime)
    requires forall i :: i in rest ==> i.SetSelection? || i.DestroySource?
    ensures multiset([CreateSource(s, contents)] + offers + rest)[SourceOffer(s, m)] ==
            multiset(offers)[SourceOffer(s, m)]
  {
    InThree([CreateSource(s, contents)], offers, rest, SourceOffer(s, m));
    assert SourceOffer(s, m) !in rest && SourceOffer(s, m) !in [CreateSource(s, contents)];
  }

  lemma RestoreItems(s: SourceId, contents: Blobs, order: seq<Mime>, previous: Option<SourceId>)
    ensures forall i :: i in RestoreRequests(s, contents, order, previous) ==> ItemOf(i, s, contents)
    ensures forall m :: multiset(RestoreRequests(s, contents, order, previous))[SourceOffer(s, m)] == multiset(order)[m]
  {
    var offers, rest := SourceOffers(s, order), AfterOffers(s, previous);
    SourceOffersOnly(s, order);
    RestoreInThree(s, contents, order, previous);
    PartsAreItems(s, contents, offers, rest);
    forall m ensures multiset(RestoreRequests(s, contents, order, previous))[SourceOffer(s, m)] == multiset(order)[m] {
      PartsCount(s, contents, offers, rest, m);
    }
  }

  // ---- Every source offers exactly what it holds ----

  /** The source was offered with each type it holds, once, and with no other. */
  ghost predicate OffersExactly(trace: seq<Item>, s: SourceId, contents: Blobs) {
    forall m :: multiset(trace)[SourceOffer(s, m)] == if m in contents then 1 else 0
  }

  ghost predicate SourcesOffered(trace: seq<Item>, next: SourceId) {
    && (forall i :: i in trace && i.CreateSource? ==> i.source < next && OffersExactly(trace, i.source, i.contents))
    && (forall i :: i in trace && i.SourceOffer? ==> i.source < next)
  }

  ghost predicate Conduct(a: App) {
    DeviceOk(a) && SourcesOffered(a.trace, a.nextSource)
  }

  lemma MoreKeepsOffered(trace: seq<Item>, more: seq<Item>, next: SourceId)
    requires SourcesOffered(trace, next) && forall i :: i in more ==> !i.CreateSource? && !i.SourceOffer?
    ensures SourcesOffered(trace + more, next)
  {
    forall i | i in trace + more && i.CreateSource?
      ensures i.source < next && OffersExactly(trace + more, i.source, i.contents)
    {
      assert i in trace;
      forall m ensures multiset(more)[SourceOffer(i.source, m)] == 0 {
        assert SourceOffer(i.source, m) !in more;
      }
    }
  }

  lemma NotYetOffered(trace: seq<Item>, next: SourceId, m: Mime)
    requires SourcesOffered(trace, next)
    ensures multiset(trace)[SourceOffer(next, m)] == 0
  {
    assert SourceOffer(next, m) !in trace;
  }

  lemma RestoreKeepsOffered(
    trace: seq<Item>, s: SourceId, contents: Blobs, order: seq<Mime>, previous: Option<SourceId>)
    requires SourcesOffered(trace, s) && IsIteration(order, contents)
    ensures SourcesOffered(trace + RestoreRequests(s, contents, order, previous), s + 1)
  {
    var more := RestoreRequests(s, contents, order, previous);
    RestoreItems(s, contents, order, previous);
    forall i | i in trace + more && i.CreateSource?
      ensures i.source < s + 1 && OffersExactly(trace + more, i.source, i.contents)
    {
      if i in trace {
        forall m ensures multiset(more)[SourceOffer(i.source, m)] == 0 {
          assert SourceOffer(i.source, m) !in more;
        }
      } else {
        forall m ensures multiset(trace)[SourceOffer(s, m)] == 0 {
          NotYetOffered(trace, s, m);
        }
        assert forall m :: multiset(order)[m] == if m in contents then 1 else 0;
      }
    }
  }

  // ---- Whole runs ----

  lemma HandleConduct(a: App, e: Event)
    requires Conduct(a)
    ensures Conduct(Handle(a, e))
  {
    var more := HandleTrace(a, e);
    HandleDevice(a, e);
    HandleSlots(a, e);
    MoreKeepsOffered(a.trace, [e.item] + more, a.nextSource);
    assert a.trace + ([e.item] + more) == a.trace + [e.item] + more;
  }

  lemma {:induction false} HandleAllConduct(a: App, events: seq<Event>)
    requires Conduct(a)
    ensures Conduct(HandleAll(a, events))
  {
    if events != [] {
      HandleAllConduct(a, events[..|events| - 1]);
      HandleConduct(HandleAll(a, events[..|events| - 1]), events[|events| - 1]);
    }
  }

  lemma RestoreConduct(o: Oracle, a: App, id: nat)
    requires Conduct(a) && ValidOracle(o)
    ensures Conduct(Restore(o, a, id).0)
  {
    if Restore(o, a, id).1 == Restored {
      var contents := PublishedFor(o, Find(a.history.entries, id).value.content);
      RestoreItems(a.nextSource, contents, o.hash(1, contents.Keys), a.source);
      RestoreKeepsOffered(a.trace, a.nextSource, contents, o.hash(1, contents.Keys), a.source);
    }
  }

  lemma {:induction false} ServeAllConduct(env: Env, s: Loop, requests: seq<Request>)
    requires Conduct(s.app) && forall r :: r in requests ==> ValidOracle(r.oracle)
    ensures Conduct(ServeAll(env, s, requests).app)
  {
    if requests != [] {
      var front, r := requests[..|requests| - 1], requests[|requests| - 1];
      ServeAllConduct(env, s, front);
      RestoreConduct(r.oracle, ServeAll(env, s, front).app, r.entryId);
    }
  }

  /** Over every run, the device is bound exactly until access is revoked, and every source was offered with
      each type it holds, once, and with no other. */
  lemma {:induction false} RunConduct(env: Env, inputs: seq<Input>)
    requires forall i :: i in inputs ==> ValidInput(i)
    ensures Conduct(RunLoop(env, BOOT, inputs).app)
  {
    if inputs != [] {
      var s, i := RunLoop(env, BOOT, inputs[..|inputs| - 1]), inputs[|inputs| - 1];
      assert ValidInput(i);
      RunConduct(env, inputs[..|inputs| - 1]);
      HandleAllConduct(s.app, i.events);
      var (s1, outcomes) := Collect(env, s, i);
      ExamineAllKeepsProxies(env, s1, StoredIds(outcomes));
      ServeAllConduct(env, ExamineAll(env, s1, StoredIds(outcomes)), i.requests);
    }
  }

  /** Over every run, a restore succeeds exactly when the entry is held and access was not revoked, and
      otherwise fails for the first of these reasons. */
  lemma RestoreSucceedsIff(env: Env, inputs: seq<Input>, o: Oracle, id: nat)
    requires (forall i :: i in inputs ==> ValidInput(i)) && ValidOracle(o)
    ensures var a := RunLoop(env, BOOT, inputs).app;
            var held := exists e :: e in a.history.entries && e.id == id;
            Restore(o, a, id).1 ==
            if !held then EntryNotFound(id) else if Finished in a.trace then NoDevice else AppStates.Restored
  {
    RunConduct(env, inputs);
  }
}
