/** What the history can hold: over every run, each entry is the classification of non-empty, bounded
    payloads of types that `pick_mimes` requests. */
module Storage {
  import opened Config
  import opened Seqs
  import opened Mimes
  import opened Contents
  import opened Histories
  import opened Drains
  import opened Wire
  import opened AppStates
  import opened EventLoops
  import opened Mirrors
  import opened Echoes

  ghost predicate ContentStored(utf8: Decoder, c: Content) {
    StoredAs(utf8, c, Representations(c)) && forall m :: m in Representations(c) ==> Eligible(m)
  }

  ghost predicate EntriesStored(utf8: Decoder, entries: seq<Entry>) {
    forall e :: e in entries ==> ContentStored(utf8, e.content)
  }

  ghost predicate ReadsEligible(queue: seq<Read>) {
    forall r :: r in queue ==> Eligible(r.mime)
  }

  ghost predicate AppStored(utf8: Decoder, a: App) {
    EntriesStored(utf8, a.history.entries) && ReadsEligible(a.pending)
  }

  // ---- Dispatch queues only eligible reads ----

  lemma {:induction false} RequestsEligible(a: App, o: Offer, mimes: seq<Mime>, answers: Answers)
    requires ReadsEligible(a.pending) && forall m :: m in mimes ==> Eligible(m)
    ensures ReadsEligible(RequestAll(a, o, mimes, answers).pending)
  {
    if mimes != [] {
      RequestsEligible(a, o, mimes[..|mimes| - 1], answers);
    }
  }

  lemma PicksEligible(offered: seq<Mime>)
    ensures forall m :: m in Pick(offered) ==> Eligible(m)
  {
    PickIsSelection(offered);
    assert forall m :: m in Pick(offered) ==> m in Candidates(offered);
  }

  lemma HandleEligible(a: App, e: Event)
    requires ReadsEligible(a.pending)
    ensures ReadsEligible(Handle(a, e).pending)
  {
    if e.item.Selection? && e.item.selected.Some? {
      var o := e.item.selected.value;
      var a1 := a.(trace := a.trace + [e.item]);
      var b := if a1.selection.Some? && a1.selection.value != o then ClearSelection(a1) else a1;
      var c := b.(selection := Some(o));
      if o.pid in c.offers {
        PicksEligible(c.offers[o.pid]);
        RequestsEligible(c, o, Pick(c.offers[o.pid]), e.answers);
      }
    }
  }

  lemma {:induction false} HandleAllEligible(a: App, events: seq<Event>)
    requires ReadsEligible(a.pending)
    ensures ReadsEligible(HandleAll(a, events).pending)
  {
    if events != [] {
      HandleAllEligible(a, events[..|events| - 1]);
      HandleEligible(HandleAll(a, events[..|events| - 1]), events[|events| - 1]);
    }
  }

  // ---- A drain stores only what it grouped ----

  ghost predicate GroupsStored(b: Batch) {
    forall id :: id in b.groups ==> Grouped(b.groups[id]) && forall m :: m in b.groups[id] ==> Eligible(m)
  }

  lemma {:induction false} GatherStored(queue: seq<Read>)
    requires ReadsEligible(queue)
    ensures GroupsStored(Gather(queue))
  {
    if queue != [] {
      var front, r := Gather(queue[..|queue| - 1]), queue[|queue| - 1];
      GatherStored(queue[..|queue| - 1]);
      if r.result.Sent? && r.result.bytes != [] {
        assert r.mime in GroupOf(front, r.offerId)[r.mime := Bounded(r.result.bytes)];
      }
    }
  }

  lemma GroupIsStored(utf8: Decoder, o: Oracle, blobs: Blobs, i: nat)
    requires ValidOracle(o) && Grouped(blobs) && forall m :: m in blobs ==> Eligible(m)
    ensures ContentAt(utf8, o, blobs, i).Some? && ContentStored(utf8, ContentAt(utf8, o, blobs, i).value)
  {
    assert NonEmpty(blobs) == blobs;
    ContentAtSome(utf8, o, blobs, i);
    var order, textOrder := o.hash(2 * i, blobs.Keys), o.hash(2 * i + 1, TextBlobs(blobs).Keys);
    assert FromBlobs(utf8, blobs, order, textOrder) == ContentAt(utf8, o, blobs, i);
  }

  lemma StoreOpsStored(utf8: Decoder, o: Oracle, order: seq<nat>, b: Batch)
    requires ValidOracle(o) && Committable(order, b) && GroupsStored(b)
    ensures forall op :: op in StoreOps(utf8, o, order, b) ==> op.Store? && ContentStored(utf8, op.content)
  {
    forall k | 0 <= k < |order| ensures ContentStored(utf8, StoreOps(utf8, o, order, b)[k].content) {
      GroupIsStored(utf8, o, b.groups[order[k]], k);
    }
  }

  lemma {:induction false} RunStored(utf8: Decoder, h: History, ops: seq<Op>)
    requires EntriesStored(utf8, h.entries)
    requires forall op :: op in ops ==> op.Store? && ContentStored(utf8, op.content)
    ensures EntriesStored(utf8, Run(h, ops).entries)
  {
    if ops != [] {
      RunStored(utf8, h, ops[..|ops| - 1]);
    }
  }

  // ---- Whole runs ----

  lemma {:induction false} ExamineAllStored(env: Env, s: Loop, ids: seq<nat>)
    requires EntriesStored(env.utf8, s.app.history.entries)
    ensures EntriesStored(env.utf8, ExamineAll(env, s, ids).app.history.entries)
    ensures ExamineAll(env, s, ids).app.pending == s.app.pending
  {
    if ids != [] {
      var t, id := ExamineAll(env, s, ids[..|ids| - 1]), ids[|ids| - 1];
      ExamineAllStored(env, s, ids[..|ids| - 1]);
      ExamineCases(env, t, id);
      WithoutMembers(t.app.history.entries, id);
    }
  }

  lemma {:induction false} ServeAllPending(env: Env, s: Loop, requests: seq<Request>)
    requires forall r :: r in requests ==> ValidOracle(r.oracle)
    ensures ServeAll(env, s, requests).app.pending == s.app.pending
  {
    if requests != [] {
      ServeAllPending(env, s, requests[..|requests| - 1]);
    }
  }

  lemma ExaminedStored(env: Env, s: Loop, i: Input)
    requires ValidInput(i) && AppStored(env.utf8, s.app)
    ensures EntriesStored(env.utf8, Examined(env, s, i).app.history.entries)
    ensures Examined(env, s, i).app.pending == []
  {
    var queue := HandleAll(s.app, i.events).pending;
    HandleAllEligible(s.app, i.events);
    GatherStored(queue);
    GatherCommittable(queue);
    StoreOpsStored(env.utf8, i.oracle, Gather(queue).order, Gather(queue));
    RunStored(env.utf8, s.app.history, TurnOps(env, s, i));
    CollectRuns(env, s, i);
    var (s1, outcomes) := Collect(env, s, i);
    ExamineAllStored(env, s1, StoredIds(outcomes));
  }

  /** After every turn of every run, nothing is waiting to be read, and every entry is the classification
      of its own representations, which are non-empty, bounded and of requested types. */
  lemma {:induction false} RunStores(env: Env, inputs: seq<Input>)
    requires forall i :: i in inputs ==> ValidInput(i)
    ensures var a := RunLoop(env, BOOT, inputs).app; AppStored(env.utf8, a) && a.pending == []
  {
    if inputs != [] {
      var front, i := inputs[..|inputs| - 1], inputs[|inputs| - 1];
      RunStores(env, front);
      var s := RunLoop(env, BOOT, front);
      ExaminedStored(env, s, i);
      ServeAllKeeps(env, Examined(env, s, i), i.requests);
      ServeAllPending(env, Examined(env, s, i), i.requests);
    }
  }
}
