/** `AppState` of `src/clipboard/state.rs` with the event handlers of `src/clipboard/wayland/`:
    the daemon's proxies, its offer cache, its queue of reads and its history. */
module AppStates {
  import opened Config
  import opened Seqs
  import opened Mimes
  import opened Contents
  import opened Histories
  import opened Drains
  import opened Restores
  import opened Wire

  /** `trace` records every event received and every request sent. Sources are numbered by creation. */
  datatype App = App(
    manager: bool, device: bool,
    source: Option<SourceId>, nextSource: SourceId,
    offers: map<nat, seq<Mime>>, selection: Option<Offer>,
    pending: seq<Read>, history: History,
    trace: seq<Item>)

  /** What requesting a type comes to: no pipe could be created, the request could not be flushed, or a
      pipe is queued that will deliver the given result. */
  datatype Attempt = NoPipe | Unflushed | Opened(result: ReadResult)

  /** The outcome of requesting each type; no pipe for a type that is not listed. */
  type Answers = map<Mime, Attempt>

  datatype Event = Event(item: EventItem, answers: Answers)

  datatype RestoreResult = Restored | EntryNotFound(id: nat) | NoManager | NoDevice

  // ---- Events ----

  function ClearSelection(a: App): App {
    match a.selection
    case None => a
    case Some(o) =>
      a.(selection := None, offers := a.offers - {o.pid}, trace := a.trace + [DestroyOffer(o)])
  }

  function AttemptFor(answers: Answers, m: Mime): Attempt {
    if m in answers then answers[m] else NoPipe
  }

  function Queue(id: nat, m: Mime, t: Attempt): seq<Read> {
    if t.Opened? then [Read(id, m, t.result)] else []
  }

  function RequestAll(a: App, o: Offer, mimes: seq<Mime>, answers: Answers): App {
    if mimes == [] then a
    else
      var b, m := RequestAll(a, o, mimes[..|mimes| - 1], answers), mimes[|mimes| - 1];
      var attempt := AttemptFor(answers, m);
      b.(trace := b.trace + if attempt.NoPipe? then [] else [Receive(o, m)],
         pending := b.pending + Queue(o.pid, m, attempt))
  }

  function OnSelection(a: App, s: Option<Offer>, answers: Answers): App {
    match s
    case None => ClearSelection(a)
    case Some(o) =>
      var b := if a.selection.Some? && a.selection.value != o then ClearSelection(a) else a;
      var c := b.(selection := Some(o));
      if o.pid !in c.offers then c else RequestAll(c, o, Pick(c.offers[o.pid]), answers)
  }

  function Handle(a0: App, e: Event): App {
    var a := a0.(trace := a0.trace + [e.item]);
    match e.item
    case DataOffer(o) => a.(offers := a.offers[o.pid := []])
    case OfferMime(o, m) => a.(offers := a.offers[o.pid := (if o.pid in a.offers then a.offers[o.pid] else []) + [m]])
    case Selection(s) => OnSelection(a, s, e.answers)
    case Finished => ClearSelection(a.(device := false))
    case PrimarySelection => a
    case Cancelled(s) =>
      if a.source == Some(s) then a.(source := None, trace := a.trace + [DestroySource(s)]) else a
  }

  function HandleAll(a: App, events: seq<Event>): App {
    if events == [] then a else Handle(HandleAll(a, events[..|events| - 1]), events[|events| - 1])
  }

  // ---- Drain ----

  function Drain(utf8: Decoder, o: Oracle, a: App): (App, seq<ReadOutcome>)
    requires ValidOracle(o)
  {
    var b := Gather(a.pending);
    var (h, outcomes) := CommitAll(utf8, o, a.history, b.order, b);
    (a.(pending := [], offers := a.offers - (set id | id in b.order), history := h), b.outcomes + outcomes)
  }

  // ---- Restore ----

  function SourceOffers(s: SourceId, mimes: seq<Mime>): seq<Item> {
    if mimes == [] then [] else SourceOffers(s, mimes[..|mimes| - 1]) + [SourceOffer(s, mimes[|mimes| - 1])]
  }

  /** The requests of a successful restore: create, offer every type, select, then destroy the old source. */
  function RestoreRequests(s: SourceId, contents: Blobs, order: seq<Mime>, previous: Option<SourceId>): seq<Item> {
    [CreateSource(s, contents)] + SourceOffers(s, order) + [SetSelection(s)]
    + if previous.Some? then [DestroySource(previous.value)] else []
  }

  function PublishedFor(o: Oracle, c: Content): Blobs
    requires ValidOracle(o)
  {
    Published(c, o.hash(0, Representations(c).Keys))
  }

  function Restore(o: Oracle, a: App, id: nat): (App, RestoreResult)
    requires ValidOracle(o)
  {
    var entry := Find(a.history.entries, id);
    if entry == None then (a, EntryNotFound(id))
    else if !a.manager then (a, NoManager)
    else if !a.device then (a, NoDevice)
    else
      var contents := PublishedFor(o, entry.value.content);
      (a.(source := Some(a.nextSource), nextSource := a.nextSource + 1,
          trace := a.trace + RestoreRequests(a.nextSource, contents, o.hash(1, contents.Keys), a.source)),
       Restored)
  }

  class AppState {
    var manager: bool
    var device: bool
    var currentSource: Option<SourceId>
    var offers: map<nat, seq<Mime>>
    var currentSelection: Option<Offer>
    var pendingReads: seq<Read>
    const clipboard: ClipState

    /** Numbers the next source proxy. */
    var nextSource: SourceId
    ghost var trace: seq<Item>

    ghost predicate Valid()
      reads this, clipboard
    {
      IdsOk(clipboard.View())
    }

    ghost function View(): App
      reads this, clipboard
    {
      App(manager, device, currentSource, nextSource, offers, currentSelection, pendingReads, clipboard.View(), trace)
    }

    constructor ()
      ensures View() == App(false, false, None, 0, map[], None, [], EMPTY, [])
      ensures Valid() && fresh(clipboard)
    {
      manager, device := false, false;
      currentSource, offers, currentSelection, pendingReads := None, map[], None, [];
      clipboard := new ClipState();
      nextSource := 0;
      trace := [];
    }

    method SetDevice(bound: bool)
      modifies this
      ensures View() == old(View()).(manager := bound, device := bound)
    {
      manager, device := bound, bound;
    }

    ghost method Log(items: seq<Item>)
      modifies this`trace
      ensures trace == old(trace) + items
    {
      trace := trace + items;
    }

    method ClearCurrentSelection()
      modifies this
      ensures View() == ClearSelection(old(View()))
    {
      if currentSelection.Some? {
        var old' := currentSelection.value;
        currentSelection := None;
        offers := offers - {old'.pid};
        Log([DestroyOffer(old')]);
      }
    }

    /** `request_mime`: create a pipe, request, flush, queue the read; each failure ends it. */
    method RequestMime(offer: Offer, mime: Mime, attempt: Attempt)
      modifies this
      ensures View() == old(View()).(
                trace := old(trace) + (if attempt.NoPipe? then [] else [Receive(offer, mime)]),
                pending := old(pendingReads) + Queue(offer.pid, mime, attempt))
    {
      if attempt.NoPipe? {
        return;
      }
      Log([Receive(offer, mime)]);
      if attempt.Unflushed? {
        return;
      }
      pendingReads := pendingReads + [Read(offer.pid, mime, attempt.result)];
    }

    method RequestMimes(offer: Offer, mimes: seq<Mime>, answers: Answers)
      modifies this
      ensures View() == RequestAll(old(View()), offer, mimes, answers)
    {
      for i := 0 to |mimes|
        invariant View() == RequestAll(old(View()), offer, mimes[..i], answers)
      {
        assert mimes[..i + 1][..i] == mimes[..i];
        RequestMime(offer, mimes[i], AttemptFor(answers, mimes[i]));
      }
      assert mimes[..|mimes|] == mimes;
    }

    method SelectionChanged(s: Option<Offer>, answers: Answers)
      modifies this
      ensures View() == OnSelection(old(View()), s, answers)
    {
      if s == None {
        ClearCurrentSelection();
        return;
      }
      var offer := s.value;
      if currentSelection.Some? && currentSelection.value != offer {
        ClearCurrentSelection();
      }
      currentSelection := Some(offer);
      if offer.pid !in offers {
        return;
      }
      var mimes := PickMimes(offers[offer.pid]);
      if mimes == [] {
        return;
      }
      RequestMimes(offer, mimes, answers);
    }

    /** `take_source_if_active`, with the destroy of its caller. */
    method SourceCancelled(s: SourceId)
      modifies this
      ensures View() == old(View()).(
                source := if old(currentSource) == Some(s) then None else old(currentSource),
                trace := old(trace) + if old(currentSource) == Some(s) then [DestroySource(s)] else [])
    {
      if currentSource == Some(s) {
        currentSource := None;
        Log([DestroySource(s)]);
      }
    }

    /** One dispatched event. */
    method Dispatch(e: Event)
      modifies this
      ensures View() == Handle(old(View()), e)
    {
      Log([e.item]);
      match e.item {
        case DataOffer(o) => offers := offers[o.pid := []];
        case OfferMime(o, m) =>
          var known := if o.pid in offers then offers[o.pid] else [];
          offers := offers[o.pid := known + [m]];
        case Selection(s) => SelectionChanged(s, e.answers);
        case Finished =>
          device := false;
          ClearCurrentSelection();
        case PrimarySelection =>
        case Cancelled(s) => SourceCancelled(s);
      }
    }

    /** The first loop of `drain_pending_reads`. */
    method ReadAll() returns (order: seq<nat>, grouped: map<nat, Blobs>, outcomes: seq<ReadOutcome>)
      modifies this`pendingReads
      ensures pendingReads == []
      ensures Batch(order, grouped, outcomes) == Gather(old(pendingReads))
    {
      order, grouped, outcomes := [], map[], [];
      ghost var queue := pendingReads;
      ghost var i := 0;
      while pendingReads != []
        invariant i <= |queue| && pendingReads == queue[i..]
        invariant Batch(order, grouped, outcomes) == Gather(queue[..i])
        decreases |pendingReads|
      {
        var read := pendingReads[0];
        pendingReads := pendingReads[1..];
        assert read == queue[i] && queue[..i + 1][..i] == queue[..i];
        i := i + 1;
        order, grouped, outcomes := ReadOne(read, order, grouped, outcomes);
      }
      assert queue[..i] == queue;
    }

    /** The body of that loop. */
    static method ReadOne(read: Read, order0: seq<nat>, grouped0: map<nat, Blobs>, outcomes0: seq<ReadOutcome>)
      returns (order: seq<nat>, grouped: map<nat, Blobs>, outcomes: seq<ReadOutcome>)
      ensures Batch(order, grouped, outcomes) == GatherOne(Batch(order0, grouped0, outcomes0), read)
    {
      order, grouped, outcomes := order0, grouped0, outcomes0;
      match read.result {
        case Broken(error) => outcomes := outcomes + [ReadError(read.mime, error)];
        case Sent(bytes) =>
          var buf, truncated := ReadBounded(bytes);
          if truncated {
            outcomes := outcomes + [Truncated(read.mime, MAX_CONTENT_BYTES + 1)];
          }
          if buf != [] {
            if read.offerId !in grouped {
              order := order + [read.offerId];
              grouped := grouped[read.offerId := map[]];
            }
            grouped := grouped[read.offerId := grouped[read.offerId][read.mime := buf]];
          }
      }
    }

    method CommitGroup(utf8: Decoder, o: Oracle, blobs: Blobs, i: nat) returns (outcomes: seq<ReadOutcome>)
      requires ValidOracle(o) && Valid()
      modifies clipboard
      ensures Valid()
      ensures (clipboard.View(), outcomes) == CommitOne(utf8, o, old(clipboard.View()), blobs, i)
    {
      outcomes := [];
      if blobs == map[] {
        return;
      }
      var iteration := o.hash(2 * i, blobs.Keys);
      var name := Label(blobs, iteration);
      ghost var before := clipboard.View();
      var id := clipboard.AddGrouped(utf8, blobs, iteration, o.hash(2 * i + 1, TextBlobs(blobs).Keys), o.stamps(i));
      AddIsFound(before, ContentAt(utf8, o, blobs, i), o.stamps(i));
      if id.Some? {
        var entry := clipboard.Get(id.value);
        if entry.Some? {
          outcomes := [Stored(id.value, PrimaryOf(entry.value.content))];
        }
      } else {
        outcomes := [IgnoredDuplicate(name)];
      }
    }

    /** The second loop: drop the offer's cache, store its blobs as one entry. */
    method CommitGroups(utf8: Decoder, o: Oracle, order: seq<nat>, grouped: map<nat, Blobs>)
      returns (outcomes: seq<ReadOutcome>)
      requires ValidOracle(o) && Valid()
      modifies this`offers, clipboard
      ensures Valid()
      ensures offers == old(offers) - (set id | id in order)
      ensures (clipboard.View(), outcomes) ==
              CommitAll(utf8, o, old(clipboard.View()), order, Batch(order, grouped, []))
    {
      outcomes := [];
      ghost var b := Batch(order, grouped, []);
      for i := 0 to |order|
        invariant Valid() && offers == old(offers) - (set id | id in order[..i])
        invariant (clipboard.View(), outcomes) == CommitAll(utf8, o, old(clipboard.View()), order[..i], b)
      {
        assert order[..i + 1][..i] == order[..i];
        offers := offers - {order[i]};
        var blobs := if order[i] in grouped then grouped[order[i]] else map[];
        var more := CommitGroup(utf8, o, blobs, i);
        outcomes := outcomes + more;
      }
      assert order[..|order|] == order;
    }

    method DrainPendingReads(utf8: Decoder, o: Oracle) returns (outcomes: seq<ReadOutcome>)
      requires ValidOracle(o) && Valid()
      modifies this, clipboard
      ensures Valid()
      ensures (View(), outcomes) == Drain(utf8, o, old(View()))
    {
      var order, grouped, issues := ReadAll();
      var stored := CommitGroups(utf8, o, order, grouped);
      outcomes := issues + stored;
      CommitIgnoresOutcomes(
        utf8, o, old(clipboard.View()), order, Batch(order, grouped, []), Batch(order, grouped, issues));
    }

    method RestoreEntry(o: Oracle, id: nat) returns (r: RestoreResult)
      requires ValidOracle(o)
      modifies this
      ensures (View(), r) == Restore(o, old(View()), id)
    {
      var entry := clipboard.Get(id);
      if entry == None { return EntryNotFound(id); }
      if !manager { return NoManager; }
      if !device { return NoDevice; }
      var contents := ContentsOf(o, entry.value.content);
      Publish(contents, o.hash(1, contents.Keys));
      r := Restored;
    }

    /** The stored representations, topped up with aliases when there is text. */
    method ContentsOf(o: Oracle, c: Content) returns (contents: Blobs)
      requires ValidOracle(o)
      ensures contents == PublishedFor(o, c)
    {
      contents := BuildRepresentations(c);
      if HasText(c) {
        var fallback := Fallback(contents, o.hash(0, contents.Keys));
        contents := TopUpAliases(contents, fallback);
      }
    }

    /** Create the source, offer every type, select it, then destroy the previous source. */
    method Publish(contents: Blobs, order: seq<Mime>)
      modifies this
      ensures View() == old(View()).(
                source := Some(old(nextSource)), nextSource := old(nextSource) + 1,
                trace := old(trace) + RestoreRequests(old(nextSource), contents, order, old(currentSource)))
    {
      var source := nextSource;
      nextSource := nextSource + 1;
      Log([CreateSource(source, contents)]);
      for i := 0 to |order|
        invariant View() == old(View()).(
                    nextSource := source + 1,
                    trace := old(trace) + ([CreateSource(source, contents)] + SourceOffers(source, order[..i])))
      {
        assert order[..i + 1][..i] == order[..i];
        Log([SourceOffer(source, order[i])]);
      }
      assert order[..|order|] == order;
      Log([SetSelection(source)]);
      var previous := ReplaceSource(source);
      if previous.Some? {
        Log([DestroySource(previous.value)]);
      }
      assert trace == old(trace) + RestoreRequests(source, contents, order, old(currentSource));
    }

    method ReplaceSource(source: SourceId) returns (previous: Option<SourceId>)
      modifies this`currentSource
      ensures currentSource == Some(source) && previous == old(currentSource)
    {
      previous := currentSource;
      currentSource := Some(source);
    }
  }

  /** A stored entry is found under the id it was given. */
  lemma AddIsFound(h: History, content: Option<Content>, now: int)
    requires IdsOk(h)
    ensures var (h', id) := Add(h, content, now);
            IdsOk(h') && (id.Some? ==> Find(h'.entries, id.value) == Some(Entry(id.value, now, content.value)))
  {
    var (h', id) := Add(h, content, now);
    AddKeepsIds(h, content, now);
    if id.Some? {
      FindAt(h'.entries, |h'.entries| - 1);
    }
  }

  lemma {:induction false} CommitIgnoresOutcomes(
    utf8: Decoder, o: Oracle, h: History, order: seq<nat>, b: Batch, c: Batch)
    requires ValidOracle(o) && b.groups == c.groups
    ensures CommitAll(utf8, o, h, order, b) == CommitAll(utf8, o, h, order, c)
  {
    if order != [] {
      CommitIgnoresOutcomes(utf8, o, h, order[..|order| - 1], b, c);
    }
  }
}
