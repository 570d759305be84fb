/** An independent monitor for the client side of the ext-data-control-v1 protocol. It watches the
    events a client receives and the requests it sends, and says whether every proxy was used and
    destroyed as the protocol demands. It knows nothing of the daemon. */
module Wire {
  import opened Config
  import opened Seqs
  import opened Contents

  type SourceId = nat

  /** An offer proxy: its identity, and the protocol id that the compositor may reuse later. */
  datatype Offer = Offer(uid: nat, pid: nat)

  datatype Item =
    // events
    | DataOffer(offer: Offer)
    | OfferMime(offer: Offer, mime: Mime)
    | Selection(selected: Option<Offer>)
    | Finished
    | PrimarySelection
    | Cancelled(source: SourceId)
    // requests
    | Receive(offer: Offer, mime: Mime)
    | CreateSource(source: SourceId, contents: Blobs)
    | SourceOffer(source: SourceId, mime: Mime)
    | SetSelection(source: SourceId)
    | DestroySource(source: SourceId)
    | DestroyOffer(offer: Offer)

  predicate IsEvent(i: Item) {
    i.DataOffer? || i.OfferMime? || i.Selection? || i.Finished? || i.PrimarySelection? || i.Cancelled?
  }

  type EventItem = i: Item | IsEvent(i) witness Finished

  datatype Monitor = Monitor(
    created: set<SourceId>, live: set<SourceId>, cancelled: set<SourceId>, selected: Option<SourceId>,
    announced: set<Offer>, liveOffers: set<Offer>, everSelected: set<Offer>, lastSelected: Option<Offer>,
    fair: bool, ok: bool)

  const START := Monitor({}, {}, {}, None, {}, {}, {}, None, true, true)

  /** What the compositor guarantees: fresh proxies, protocol ids unique among live objects, events
      only for live offers. Only sources that were created are cancelled, but that may be old news. */
  predicate FairEvent(m: Monitor, e: Item) {
    match e
    case DataOffer(o) => o !in m.announced && forall p :: p in m.liveOffers ==> p.pid != o.pid
    case OfferMime(o, _) => o in m.liveOffers
    case Selection(s) => s.Some? ==> s.value in m.liveOffers
    case Cancelled(s) => s in m.created
    case _ => true
  }

  /** `fair` turns false when an event breaks a guarantee of the compositor. `ok` turns false when a
      source is created twice, offered on or selected after its destruction, destroyed twice, or destroyed
      while it is the selection the client set and was not cancelled; when an offer is destroyed twice,
      before it was ever selected or while it still is the selection the compositor announced (unless
      access was revoked); or when data is requested from another offer than the selected one. */
  function Observe(m0: Monitor, i: Item): Monitor {
    var m := m0.(fair := m0.fair && FairEvent(m0, i));
    match i
    case DataOffer(o) => m.(announced := m.announced + {o}, liveOffers := m.liveOffers + {o})
    case OfferMime(_, _) => m
    case Selection(s) =>
      m.(lastSelected := s, everSelected := m.everSelected + if s.Some? then {s.value} else {})
    case Finished => m.(lastSelected := None)
    case PrimarySelection => m
    case Cancelled(s) => m.(cancelled := m.cancelled + {s})
    case Receive(o, _) => m.(ok := m.ok && o in m.liveOffers && m.lastSelected == Some(o))
    case CreateSource(s, _) =>
      m.(ok := m.ok && s !in m.created, created := m.created + {s}, live := m.live + {s})
    case SourceOffer(s, _) => m.(ok := m.ok && s in m.live && m.selected != Some(s))
    case SetSelection(s) => m.(ok := m.ok && s in m.live, selected := Some(s))
    case DestroySource(s) =>
      m.(ok := m.ok && s in m.live && (m.selected != Some(s) || s in m.cancelled), live := m.live - {s})
    case DestroyOffer(o) =>
      m.(ok := m.ok && o in m.liveOffers && o in m.everSelected && m.lastSelected != Some(o),
         liveOffers := m.liveOffers - {o})
  }

  function Watch(m: Monitor, items: seq<Item>): Monitor {
    if items == [] then m else Observe(Watch(m, items[..|items| - 1]), items[|items| - 1])
  }

  lemma {:induction false} WatchAppend(m: Monitor, a: seq<Item>, b: seq<Item>)
    ensures Watch(m, a + b) == Watch(Watch(m, a), b)
  {
    if b == [] {
      assert a + b == a;
    } else {
      WatchAppend(m, a, b[..|b| - 1]);
      assert (a + b)[..|a + b| - 1] == a + b[..|b| - 1];
    }
  }

  lemma WatchOne(m: Monitor, items: seq<Item>, i: Item)
    ensures Watch(m, items + [i]) == Observe(Watch(m, items), i)
  {
    assert (items + [i])[..|items + [i]| - 1] == items;
  }

  function Destroyed(items: seq<Item>, what: Item): nat {
    if items == [] then 0
    else Destroyed(items[..|items| - 1], what) + if items[|items| - 1] == what then 1 else 0
  }

  /** On a trace the monitor accepts, every created source is live or was destroyed exactly once,
      and every announced offer is live or was destroyed exactly once. */
  lemma {:induction false} DestroyedOnce(items: seq<Item>, s: SourceId, o: Offer)
    requires var m := Watch(START, items); m.ok && m.fair
    ensures var m := Watch(START, items);
            && m.live <= m.created && m.liveOffers <= m.announced
            && Destroyed(items, DestroySource(s)) == (if s in m.created && s !in m.live then 1 else 0)
            && Destroyed(items, DestroyOffer(o)) == (if o in m.announced && o !in m.liveOffers then 1 else 0)
  {
    if items != [] {
      DestroyedOnce(items[..|items| - 1], s, o);
    }
  }
}
