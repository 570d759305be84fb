/** A copy on its own: offered, listed, selected, drained. The building block of concrete runs. */
module Copies {
  import opened Config
  import opened Seqs
  import opened Mimes
  import opened Contents
  import opened Histories
  import opened Drains
  import opened Wire
  import opened AppStates
  import opened Batches

  function Announcements(o: Offer, mimes: seq<Mime>): seq<Event> {
    if mimes == [] then [Event(DataOffer(o), map[])]
    else Announcements(o, mimes[..|mimes| - 1]) + [Event(OfferMime(o, mimes[|mimes| - 1]), map[])]
  }

  /** The offer is introduced, its types are listed, then it is selected. */
  function CopyEvents(o: Offer, mimes: seq<Mime>, answers: Answers): seq<Event> {
    Announcements(o, mimes) + [Event(Selection(Some(o)), answers)]
  }

  lemma HandleAllSnoc(a: App, events: seq<Event>, e: Event)
    ensures HandleAll(a, events + [e]) == Handle(HandleAll(a, events), e)
  {
    assert (events + [e])[..|events + [e]| - 1] == events;
  }

  /** The types of the offer are cached, and nothing else has changed. */
  ghost predicate Cached(a: App, b: App, o: Offer, mimes: seq<Mime>) {
    && o.pid in b.offers && b.offers[o.pid] == mimes
    && b == a.(offers := b.offers, trace := b.trace)
  }

  lemma OfferMimeCaches(a: App, b: App, o: Offer, front: seq<Mime>, m: Mime)
    requires Cached(a, b, o, front)
    ensures Cached(a, Handle(b, Event(OfferMime(o, m), map[])), o, front + [m])
  {
  }

  lemma {:induction false} AnnouncementsCached(a: App, o: Offer, mimes: seq<Mime>)
    ensures Cached(a, HandleAll(a, Announcements(o, mimes)), o, mimes)
  {
    if mimes == [] {
      assert [] + [Event(DataOffer(o), map[])] == [Event(DataOffer(o), map[])];
      HandleAllSnoc(a, [], Event(DataOffer(o), map[]));
    } else {
      var front, m := mimes[..|mimes| - 1], mimes[|mimes| - 1];
      AnnouncementsCached(a, o, front);
      OfferMimeCaches(a, HandleAll(a, Announcements(o, front)), o, front, m);
      HandleAllSnoc(a, Announcements(o, front), Event(OfferMime(o, m), map[]));
      assert front + [m] == mimes;
    }
  }

  lemma {:induction false} AnnouncementsSelectNothing(o: Offer, mimes: seq<Mime>)
    ensures forall e :: e in Announcements(o, mimes) ==> !e.item.Selection?
  {
    if mimes != [] {
      AnnouncementsSelectNothing(o, mimes[..|mimes| - 1]);
    }
  }

  function Alone(o: Offer, mimes: seq<Mime>, answers: Answers): Copy {
    Copy(|Announcements(o, mimes)|, o, mimes, answers)
  }

  /** A copy on its own selects its offer once. */
  lemma CopySelectsOnce(a: App, o: Offer, mimes: seq<Mime>, answers: Answers)
    requires a.pending == [] && (a.selection.Some? ==> a.selection.value.pid != o.pid)
    ensures SelectedOnce(a, CopyEvents(o, mimes, answers), Alone(o, mimes, answers))
  {
    var front := Announcements(o, mimes);
    var last := Event(Selection(Some(o)), answers);
    AnnouncementsCached(a, o, mimes);
    AnnouncementsSelectNothing(o, mimes);
    NothingElseSelects(front, last, o.pid);
  }

  lemma NothingElseSelects(front: seq<Event>, last: Event, id: nat)
    requires forall e :: e in front ==> !e.item.Selection?
    ensures (front + [last])[..|front|] == front
    ensures forall j :: 0 <= j < |front + [last]| && j != |front| ==> !Selects((front + [last])[j], id)
  {
  }

  /** It queues one read for each picked type that could be requested. */
  lemma CopyQueues(a: App, o: Offer, mimes: seq<Mime>, answers: Answers)
    requires a.selection.Some? ==> a.selection.value.pid != o.pid
    ensures var b := HandleAll(a, CopyEvents(o, mimes, answers));
            b == a.(selection := Some(o), offers := b.offers, trace := b.trace,
                    pending := a.pending + Queued(o.pid, Pick(mimes), answers))
  {
    AnnouncementsCached(a, o, mimes);
    HandleAllSnoc(a, Announcements(o, mimes), Event(Selection(Some(o)), answers));
    var b := HandleAll(a, Announcements(o, mimes));
    SelectionQueues(b.(trace := b.trace + [Selection(Some(o))]), o, mimes, answers);
  }

  /** A queue of reads for one offer commits one group. */
  lemma OneGroup(queue: seq<Read>, id: nat)
    requires forall r :: r in queue ==> r.offerId == id
    requires id in Gather(queue).groups
    ensures Gather(queue).order == [id]
  {
    GatherOk(queue);
    GatherOrder(queue);
    var order := Gather(queue).order;
    assert |order| > 1 ==> FirstDelivery(queue, order[0]) < FirstDelivery(queue, order[1]);
    forall k | 0 <= k < |order| ensures order[k] == id {
      assert order[k] in order;
      var f := FirstDelivery(queue, order[k]);
      assert queue[f] in queue;
    }
    assert id in order;
  }

  lemma CommitSingle(utf8: Decoder, o: Oracle, h: History, id: nat, b: Batch)
    requires ValidOracle(o) && GroupOf(b, id) != map[]
    ensures CommitAll(utf8, o, h, [id], b).0 == Add(h, ContentAt(utf8, o, GroupOf(b, id), 0), o.stamps(0)).0
  {
    assert [id][..0] == [];
    assert CommitAll(utf8, o, h, [], b) == (h, []);
  }

  /** The queue after a copy on its own forms one group. */
  lemma CopyGroup(a: App, o: Offer, mimes: seq<Mime>, answers: Answers)
    requires a.pending == [] && (a.selection.Some? ==> a.selection.value.pid != o.pid)
    requires Delivered(mimes, answers) != map[]
    ensures var b := Gather(HandleAll(a, CopyEvents(o, mimes, answers)).pending);
            b.order == [o.pid] && o.pid in b.groups && b.groups[o.pid] == Delivered(mimes, answers)
  {
    var queue := Queued(o.pid, Pick(mimes), answers);
    CopyQueues(a, o, mimes, answers);
    assert a.pending + queue == queue;
    CopySelectsOnce(a, o, mimes, answers);
    GroupIsDelivered(a, CopyEvents(o, mimes, answers), Alone(o, mimes, answers));
    QueuedOffer(o.pid, Pick(mimes), answers);
    OneGroup(queue, o.pid);
  }

  /** The state after a copy arrived and was drained. */
  function Copied(utf8: Decoder, o: Oracle, a: App, offer: Offer, mimes: seq<Mime>, answers: Answers): App
    requires ValidOracle(o)
  {
    Drain(utf8, o, HandleAll(a, CopyEvents(offer, mimes, answers))).0
  }

  /** A copy on its own amounts to one `Add` of what it delivered. */
  lemma CopyAdds(utf8: Decoder, o: Oracle, a: App, offer: Offer, mimes: seq<Mime>, answers: Answers)
    requires ValidOracle(o) && a.pending == [] && (a.selection.Some? ==> a.selection.value.pid != offer.pid)
    requires Delivered(mimes, answers) != map[]
    ensures var c, b := ContentAt(utf8, o, Delivered(mimes, answers), 0), Copied(utf8, o, a, offer, mimes, answers);
            && c.Some? && Representations(c.value) == Delivered(mimes, answers)
            && b.history == Add(a.history, c, o.stamps(0)).0
            && b.pending == []
  {
    CopyQueues(a, offer, mimes, answers);
    CopyGroup(a, offer, mimes, answers);
    var queue := HandleAll(a, CopyEvents(offer, mimes, answers)).pending;
    GatherOk(queue);
    CommitSingle(utf8, o, a.history, offer.pid, Gather(queue));
    ContentAtSome(utf8, o, Delivered(mimes, answers), 0);
  }
}
