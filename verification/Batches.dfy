/** From events to groups: what a drain stores for an offer that was selected once, whatever other
    events and copies share its turn. */
module Batches {
  import opened Config
  import opened Seqs
  import opened Mimes
  import opened Contents
  import opened Drains
  import opened Restores
  import opened Wire
  import opened AppStates

  // ---- What a selection queues ----

  /** The reads that requesting the types queues. */
  function Queued(id: nat, mimes: seq<Mime>, answers: Answers): seq<Read> {
    if mimes == [] then []
    else
      var m := mimes[|mimes| - 1];
      Queued(id, mimes[..|mimes| - 1], answers) + Queue(id, m, AttemptFor(answers, m))
  }

  /** Requesting changes nothing but the queue and the trace. */
  lemma {:induction false} RequestOnlyQueues(a: App, o: Offer, mimes: seq<Mime>, answers: Answers)
    ensures var b := RequestAll(a, o, mimes, answers);
            b == a.(pending := a.pending + Queued(o.pid, mimes, answers), trace := b.trace)
  {
    if mimes != [] {
      RequestOnlyQueues(a, o, mimes[..|mimes| - 1], answers);
    }
  }

  lemma {:induction false} QueuedOffer(id: nat, mimes: seq<Mime>, answers: Answers)
    ensures forall r :: r in Queued(id, mimes, answers) ==> r.offerId == id
  {
    if mimes != [] {
      QueuedOffer(id, mimes[..|mimes| - 1], answers);
    }
  }

  /** The bytes that requesting the type delivers in the end, if any. */
  function PayloadFor(answers: Answers, m: Mime): Option<Bytes> {
    var t := AttemptFor(answers, m);
    if t.Opened? && t.result.Sent? && t.result.bytes != [] then Some(Bounded(t.result.bytes)) else None
  }

  lemma LastPayloadSnoc(queue: seq<Read>, r: Read, id: nat, m: Mime)
    ensures LastPayload(queue + [r], id, m) ==
            if Delivers(r, id) && r.mime == m then Some(Bounded(r.result.bytes)) else LastPayload(queue, id, m)
  {
    assert (queue + [r])[..|queue + [r]| - 1] == queue;
  }

  lemma {:induction false} QueuedPayload(id: nat, mimes: seq<Mime>, answers: Answers, m: Mime)
    ensures LastPayload(Queued(id, mimes, answers), id, m) == if m in mimes then PayloadFor(answers, m) else None
  {
    if mimes != [] {
      var front, last := mimes[..|mimes| - 1], mimes[|mimes| - 1];
      var queue, t := Queued(id, front, answers), AttemptFor(answers, last);
      QueuedPayload(id, front, answers, m);
      assert m in mimes <==> m in front || m == last;
      assert queue + [] == queue;
      if t.Opened? {
        LastPayloadSnoc(queue, Read(id, last, t.result), id, m);
      }
    }
  }

  // ---- Reads of other offers make no difference ----

  lemma {:induction false} LastPayloadAppend(queue: seq<Read>, more: seq<Read>, id: nat, m: Mime)
    ensures LastPayload(queue + more, id, m) ==
            if LastPayload(more, id, m).Some? then LastPayload(more, id, m) else LastPayload(queue, id, m)
  {
    if more == [] {
      assert queue + more == queue;
    } else {
      var n := |more| - 1;
      LastPayloadAppend(queue, more[..n], id, m);
      LastPayloadSnoc(queue + more[..n], more[n], id, m);
      assert queue + more == queue + more[..n] + [more[n]];
    }
  }

  lemma {:induction false} NoPayload(queue: seq<Read>, id: nat, m: Mime)
    requires forall r :: r in queue ==> r.offerId != id
    ensures LastPayload(queue, id, m) == None
  {
    if queue != [] {
      assert queue[|queue| - 1] in queue;
      NoPayload(queue[..|queue| - 1], id, m);
    }
  }

  predicate Selects(e: Event, id: nat) {
    e.item.Selection? && e.item.selected.Some? && e.item.selected.value.pid == id
  }

  /** An event queues reads only for the offer it selects. */
  lemma EventQueues(a: App, e: Event) returns (more: seq<Read>)
    ensures Handle(a, e).pending == a.pending + more
    ensures forall r :: r in more ==> Selects(e, r.offerId)
  {
    more := [];
    if e.item.Selection? && e.item.selected.Some? {
      var o := e.item.selected.value;
      var a1 := a.(trace := a.trace + [e.item]);
      var b := if a1.selection.Some? && a1.selection.value != o then ClearSelection(a1) else a1;
      var c := b.(selection := Some(o));
      if o.pid in c.offers {
        more := Queued(o.pid, Pick(c.offers[o.pid]), e.answers);
        RequestOnlyQueues(c, o, Pick(c.offers[o.pid]), e.answers);
        QueuedOffer(o.pid, Pick(c.offers[o.pid]), e.answers);
      }
    }
  }

  lemma PayloadKept(a: App, e: Event, id: nat, m: Mime)
    requires !Selects(e, id)
    ensures LastPayload(Handle(a, e).pending, id, m) == LastPayload(a.pending, id, m)
  {
    var more := EventQueues(a, e);
    NoPayload(more, id, m);
    LastPayloadAppend(a.pending, more, id, m);
  }

  lemma {:induction false} PayloadsKept(a: App, events: seq<Event>, id: nat, m: Mime)
    requires forall e :: e in events ==> !Selects(e, id)
    ensures LastPayload(HandleAll(a, events).pending, id, m) == LastPayload(a.pending, id, m)
  {
    if events != [] {
      var front := events[..|events| - 1];
      PayloadsKept(a, front, id, m);
      assert events[|events| - 1] in events;
      PayloadKept(HandleAll(a, front), events[|events| - 1], id, m);
    }
  }

  lemma {:induction false} HandleAllAppend(a: App, x: seq<Event>, y: seq<Event>)
    ensures HandleAll(a, x + y) == HandleAll(HandleAll(a, x), y)
  {
    if y == [] {
      assert x + y == x;
    } else {
      HandleAllAppend(a, x, y[..|y| - 1]);
      assert (x + y)[..|x + y| - 1] == x + y[..|y| - 1];
    }
  }

  // ---- An offer selected once ----

  /** When the offer is selected its types are cached, and no other offer with its protocol id is the
      current selection. */
  ghost predicate Selectable(a: App, o: Offer, offered: seq<Mime>) {
    && o.pid in a.offers && a.offers[o.pid] == offered
    && (a.selection.Some? && a.selection.value != o ==> a.selection.value.pid != o.pid)
  }

  /** A copy as the daemon sees it: the event that selects its offer, the types the offer is known to have
      by then, and what requesting them comes to. */
  datatype Copy = Copy(at: nat, offer: Offer, offered: seq<Mime>, answers: Answers)

  /** Of all the events, the copy's and no other selects its offer; no read of it was queued before. */
  ghost predicate SelectedOnce(a: App, events: seq<Event>, c: Copy) {
    && c.at < |events| && events[c.at] == Event(Selection(Some(c.offer)), c.answers)
    && (forall j :: 0 <= j < |events| && j != c.at ==> !Selects(events[j], c.offer.pid))
    && (forall r :: r in a.pending ==> r.offerId != c.offer.pid)
    && Selectable(HandleAll(a, events[..c.at]), c.offer, c.offered)
  }

  lemma SelectionQueues(a: App, o: Offer, offered: seq<Mime>, answers: Answers)
    requires Selectable(a, o, offered)
    ensures var b := OnSelection(a, Some(o), answers);
            b == a.(selection := Some(o), offers := b.offers, trace := b.trace,
                    pending := a.pending + Queued(o.pid, Pick(offered), answers))
  {
    var c := (if a.selection.Some? && a.selection.value != o then ClearSelection(a) else a).(selection := Some(o));
    RequestOnlyQueues(c, o, Pick(offered), answers);
  }

  /** The last payloads of the offer are those delivered for the picked types. */
  lemma SelectedPayload(a: App, events: seq<Event>, c: Copy, m: Mime)
    requires SelectedOnce(a, events, c)
    ensures LastPayload(HandleAll(a, events).pending, c.offer.pid, m) ==
            if m in Pick(c.offered) then PayloadFor(c.answers, m) else None
  {
    var id, b := c.offer.pid, HandleAll(a, events[..c.at]);
    PayloadsKept(a, events[..c.at], id, m);
    NoPayload(a.pending, id, m);
    SelectionQueues(b.(trace := b.trace + [Selection(Some(c.offer))]), c.offer, c.offered, c.answers);
    QueuedPayload(id, Pick(c.offered), c.answers, m);
    LastPayloadAppend(b.pending, Queued(id, Pick(c.offered), c.answers), id, m);
    PayloadsKept(Handle(b, events[c.at]), events[c.at + 1..], id, m);
    HandledAround(a, events, c.at);
  }

  lemma HandledAround(a: App, events: seq<Event>, at: nat)
    requires at < |events|
    ensures HandleAll(a, events) == HandleAll(Handle(HandleAll(a, events[..at]), events[at]), events[at + 1..])
  {
    assert events[..at + 1][..at] == events[..at];
    assert events == events[..at + 1] + events[at + 1..];
    HandleAllAppend(a, events[..at + 1], events[at + 1..]);
  }

  /** The blobs a copy delivers. */
  function Delivered(offered: seq<Mime>, answers: Answers): Blobs {
    map m | m in Pick(offered) && PayloadFor(answers, m).Some? :: PayloadFor(answers, m).value
  }

  /** What a map holds for a type. */
  function Lookup(blobs: Blobs, m: Mime): Option<Bytes> {
    if m in blobs then Some(blobs[m]) else None
  }

  lemma SameLookups(a: Blobs, b: Blobs)
    requires forall m :: Lookup(a, m) == Lookup(b, m)
    ensures a == b
  {
    assert forall m :: m in a ==> Lookup(a, m).Some?;
    assert forall m :: m in b ==> Lookup(b, m).Some?;
  }

  lemma GroupLookup(queue: seq<Read>, id: nat, m: Mime)
    ensures Lookup(GroupOf(Gather(queue), id), m) == LastPayload(queue, id, m)
  {
    GatherGroups(queue, id, m);
  }

  /** In any batch, the group of an offer selected once is exactly what its copy delivered. */
  lemma GroupIsDelivered(a: App, events: seq<Event>, c: Copy)
    requires SelectedOnce(a, events, c)
    ensures var b := Gather(HandleAll(a, events).pending);
            && GroupOf(b, c.offer.pid) == Delivered(c.offered, c.answers)
            && (c.offer.pid in b.groups <==> Delivered(c.offered, c.answers) != map[])
  {
    var queue := HandleAll(a, events).pending;
    forall m ensures Lookup(GroupOf(Gather(queue), c.offer.pid), m) == Lookup(Delivered(c.offered, c.answers), m) {
      GroupLookup(queue, c.offer.pid, m);
      SelectedPayload(a, events, c, m);
    }
    SameLookups(GroupOf(Gather(queue), c.offer.pid), Delivered(c.offered, c.answers));
    GatherGroups(queue, c.offer.pid, PLAIN);
  }

  lemma KeysFromList(blobs: Blobs, keys: seq<Mime>)
    requires forall m :: m in blobs ==> m in keys
    ensures |blobs| <= |keys|
  {
    var all := set m | m in keys;
    SubsetCard(blobs.Keys, all);
    SetOfSeq(keys);
  }

  lemma {:induction false} SetOfSeq(keys: seq<Mime>)
    ensures |set m | m in keys| <= |keys|
  {
    if keys != [] {
      SetOfSeq(keys[1..]);
      assert (set m | m in keys) == {keys[0]} + set m | m in keys[1..];
    }
  }

  lemma DeliveredIsBounded(offered: seq<Mime>, answers: Answers)
    ensures |Delivered(offered, answers)| <= MAX_MIMES_PER_SELECTION
    ensures forall m :: m in Delivered(offered, answers) ==> 0 < |Delivered(offered, answers)[m]| <= MAX_CONTENT_BYTES
  {
    PickIsSelection(offered);
    KeysFromList(Delivered(offered, answers), Pick(offered));
  }

  /** In any batch, an offer selected once is stored with at most `MAX_MIMES_PER_SELECTION`
      representations, none of them empty and none larger than `MAX_CONTENT_BYTES`. */
  lemma GroupIsBounded(a: App, events: seq<Event>, c: Copy)
    requires SelectedOnce(a, events, c)
    ensures var group := GroupOf(Gather(HandleAll(a, events).pending), c.offer.pid);
            && |group| <= MAX_MIMES_PER_SELECTION
            && forall m :: m in group ==> 0 < |group[m]| <= MAX_CONTENT_BYTES
  {
    GroupIsDelivered(a, events, c);
    DeliveredIsBounded(c.offered, c.answers);
  }

  /** In any batch, the content committed for an offer holds exactly the last non-empty payload of each
      type, and restoring it serves them byte for byte, whatever the hash maps do. */
  lemma CommittedServes(
    utf8: Decoder, o: Oracle, queue: seq<Read>, id: nat, i: nat, mime: Mime, r: seq<Mime>, serving: seq<Mime>)
    requires ValidOracle(o) && id in Gather(queue).groups
    requires var c := ContentAt(utf8, o, Gather(queue).groups[id], i);
             c.Some? ==> IsIteration(r, Representations(c.value)) && IsIteration(serving, Published(c.value, r))
    ensures var c, payload := ContentAt(utf8, o, Gather(queue).groups[id], i), LastPayload(queue, id, mime);
            && c.Some?
            && (payload.Some? <==> mime in Representations(c.value))
            && (payload.Some? ==> ContentFor(Published(c.value, r), mime, serving) == payload)
  {
    GatherOk(queue);
    GatherGroups(queue, id, mime);
    ContentAtSome(utf8, o, Gather(queue).groups[id], i);
  }
}
