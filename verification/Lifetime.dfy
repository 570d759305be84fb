/** An entry from the reads that made it to every later request for it. */
module Lifetimes {
  import opened Config
  import opened Seqs
  import opened Mimes
  import opened Contents
  import opened Histories
  import opened Drains
  import opened Restores
  import opened Wire
  import opened AppStates
  import opened EventLoops
  import opened Mirrors
  import opened Ownership
  import opened Echoes
  import opened Storage
  import opened Batches

  // ---- Entries never change, and never come back ----

  /** Every entry of the later history that is not new was there before, as it is. */
  ghost predicate Persists(h: History, later: History) {
    h.nextId <= later.nextId && forall e :: e in later.entries && e.id < h.nextId ==> e in h.entries
  }

  lemma PersistsTransitive(a: History, b: History, c: History)
    requires Persists(a, b) && Persists(b, c)
    ensures Persists(a, c)
  {
  }

  lemma AddPersists(h: History, op: Op)
    ensures Persists(h, Apply(h, op).0)
  {
    if op.Drop? {
      WithoutMembers(h.entries, op.id);
    }
  }

  lemma {:induction false} RunPersists(h: History, ops: seq<Op>, k: nat)
    requires k <= |ops|
    ensures Persists(Run(h, ops[..k]), Run(h, ops))
  {
    if k == |ops| {
      assert ops[..k] == ops;
    } else {
      var n := |ops| - 1;
      RunPersists(h, ops[..n], k);
      assert ops[..n][..k] == ops[..k];
      AddPersists(Run(h, ops[..n]), ops[n]);
      PersistsTransitive(Run(h, ops[..k]), Run(h, ops[..n]), Run(h, ops));
    }
  }

  lemma {:induction false} ExamineAllPersists(env: Env, s: Loop, ids: seq<nat>)
    ensures Persists(s.app.history, ExamineAll(env, s, ids).app.history)
  {
    if ids != [] {
      var t, id := ExamineAll(env, s, ids[..|ids| - 1]), ids[|ids| - 1];
      ExamineAllPersists(env, s, ids[..|ids| - 1]);
      ExamineCases(env, t, id);
      AddPersists(t.app.history, Drop(id));
      PersistsTransitive(s.app.history, t.app.history, Examine(env, t, id).app.history);
    }
  }

  /** From the moment after the `k`-th store of a turn to its restores. */
  lemma ExaminedPersists(env: Env, s: Loop, i: Input, k: nat)
    requires ValidInput(i) && k <= |TurnOps(env, s, i)|
    ensures Persists(Run(s.app.history, TurnOps(env, s, i)[..k]), Examined(env, s, i).app.history)
  {
    var h, ops := s.app.history, TurnOps(env, s, i);
    var (s1, outcomes) := Collect(env, s, i);
    CollectRuns(env, s, i);
    RunPersists(h, ops, k);
    ExamineAllPersists(env, s1, StoredIds(outcomes));
    PersistsTransitive(Run(h, ops[..k]), s1.app.history, Examined(env, s, i).app.history);
  }

  lemma TurnPersists(env: Env, s: Loop, i: Input)
    requires ValidInput(i)
    ensures Persists(s.app.history, Examined(env, s, i).app.history)
    ensures Iterate(env, s, i).app.history == Examined(env, s, i).app.history
  {
    ExaminedPersists(env, s, i, 0);
    ServeAllKeeps(env, Examined(env, s, i), i.requests);
    assert TurnOps(env, s, i)[..0] == [];
  }

  /** From one turn to the end of the run. */
  lemma {:induction false} TurnsPersist(env: Env, inputs: seq<Input>, n: nat)
    requires n <= |inputs| && forall i :: i in inputs ==> ValidInput(i)
    ensures Persists(RunLoop(env, BOOT, inputs[..n]).app.history, RunLoop(env, BOOT, inputs).app.history)
  {
    if n == |inputs| {
      assert inputs[..n] == inputs;
    } else {
      var m := |inputs| - 1;
      TurnsPersist(env, inputs[..m], n);
      assert inputs[..m][..n] == inputs[..n];
      TurnPersists(env, RunLoop(env, BOOT, inputs[..m]), inputs[m]);
      PersistsTransitive(RunLoop(env, BOOT, inputs[..n]).app.history, RunLoop(env, BOOT, inputs[..m]).app.history,
                         RunLoop(env, BOOT, inputs).app.history);
    }
  }

  lemma FoundUnchanged(h: History, later: History, e: Entry)
    requires IdsOk(h) && Persists(h, later) && e in h.entries && Find(later.entries, e.id).Some?
    ensures Find(later.entries, e.id) == Some(e)
  {
    var f := Find(later.entries, e.id).value;
    assert f in h.entries;
  }

  // ---- The entry of a copy ----

  function NewestEntry(h: History): Option<Entry> {
    if h.entries == [] then None else Some(h.entries[|h.entries| - 1])
  }

  /** The newest entry after the `k`-th store of a turn: the one stored, or the one it repeated. */
  function EntryAfter(env: Env, s: Loop, i: Input, k: nat): Option<Entry>
    requires ValidInput(i) && k < |TurnOps(env, s, i)|
  {
    NewestEntry(Run(s.app.history, TurnOps(env, s, i)[..k + 1]))
  }

  /** The offers of a turn, in the order in which their groups are stored. */
  function TurnOrder(s: Loop, i: Input): seq<nat> {
    Gather(HandleAll(s.app, i.events).pending).order
  }

  /** The `k`-th store of a turn is of the group of the `k`-th offer. */
  lemma TurnStores(env: Env, s: Loop, i: Input, k: nat)
    requires ValidInput(i) && k < |TurnOrder(s, i)|
    ensures var ops, b := TurnOps(env, s, i), Gather(HandleAll(s.app, i.events).pending);
            && |ops| == |b.order| && b.order[k] in b.groups
            && Some(ops[k].content) == ContentAt(env.utf8, i.oracle, b.groups[b.order[k]], k)
            && Representations(ops[k].content) == b.groups[b.order[k]]
  {
    var queue := HandleAll(s.app, i.events).pending;
    GatherCommittable(queue);
  }

  lemma AddedIsNewest(h: History, op: Op)
    requires op.Store?
    ensures var e := NewestEntry(Apply(h, op).0); e.Some? && e.value.content == op.content
  {
  }

  lemma AfterOp(h: History, ops: seq<Op>, k: nat)
    requires k < |ops| && ops[k].Store?
    ensures var e := NewestEntry(Run(h, ops[..k + 1])); e.Some? && e.value.content == ops[k].content
  {
    assert ops[..k + 1] == ops[..k] + [ops[k]];
    RunAppend(h, ops[..k], ops[k]);
    AddedIsNewest(Run(h, ops[..k]), ops[k]);
  }

  lemma AfterStore(env: Env, s: Loop, i: Input, k: nat)
    requires ValidInput(i) && k < |TurnOps(env, s, i)|
    ensures EntryAfter(env, s, i, k).Some? && EntryAfter(env, s, i, k).value.content == TurnOps(env, s, i)[k].content
  {
    AfterOp(s.app.history, TurnOps(env, s, i), k);
  }

  /** `e` is the entry that turn `n` stored for the offer with protocol id `id`, or repeated. */
  ghost predicate IsEntryOf(env: Env, inputs: seq<Input>, n: nat, id: nat, e: Entry)
    requires forall i :: i in inputs ==> ValidInput(i)
  {
    && n < |inputs|
    && var s := RunLoop(env, BOOT, inputs[..n]);
       exists k: nat :: StoredFor(env, s, inputs[n], id, e, k)
  }

  ghost predicate StoredFor(env: Env, s: Loop, i: Input, id: nat, e: Entry, k: nat)
    requires ValidInput(i)
  {
    k < |TurnOrder(s, i)| && TurnOrder(s, i)[k] == id && k < |TurnOps(env, s, i)| && EntryAfter(env, s, i, k) == Some(e)
  }

  /** In turn `n` of the run the offer is selected once, among any other events and copies. */
  ghost predicate CopiedIn(env: Env, inputs: seq<Input>, n: nat, c: Copy)
    requires forall i :: i in inputs ==> ValidInput(i)
  {
    n < |inputs| && SelectedOnce(RunLoop(env, BOOT, inputs[..n]).app, inputs[n].events, c)
  }

  lemma SelectedFairly(a: App, e: Event, o: Offer)
    requires AppOk(a) && e.item == Selection(Some(o)) && Watch(START, a.trace + [e.item]).fair
    ensures a.selection.Some? && a.selection.value != o ==> a.selection.value.pid != o.pid
  {
    WatchOne(START, a.trace, e.item);
    FairBefore(a.trace, [e.item]);
    assert a.selection.Some? ==> a.selection.value in Seen(a).everSelected * Seen(a).liveOffers;
  }

  /** Over every run, while the compositor is fair, no other offer with the same protocol id is the current
      selection when an offer is selected: an offer whose types are known is always selectable. */
  lemma FairlySelectable(env: Env, inputs: seq<Input>, events: seq<Event>, at: nat, o: Offer)
    requires (forall i :: i in inputs ==> ValidInput(i)) && at < |events| && events[at].item == Selection(Some(o))
    requires var a := HandleAll(RunLoop(env, BOOT, inputs).app, events[..at]);
             Watch(START, a.trace + [events[at].item]).fair && o.pid in a.offers
    ensures var a := HandleAll(RunLoop(env, BOOT, inputs).app, events[..at]); Selectable(a, o, a.offers[o.pid])
  {
    RunOwns(env, inputs);
    HandleAllKeeps(RunLoop(env, BOOT, inputs).app, events[..at]);
    SelectedFairly(HandleAll(RunLoop(env, BOOT, inputs).app, events[..at]), events[at], o);
  }

  lemma InOrder(queue: seq<Read>, id: nat) returns (k: nat)
    requires id in Gather(queue).groups
    ensures k < |Gather(queue).order| && Gather(queue).order[k] == id
  {
    GatherOk(queue);
    k :| 0 <= k < |Gather(queue).order| && Gather(queue).order[k] == id;
  }

  /** A copy that delivers something has an entry, which holds exactly what was delivered for the picked
      types: at most four representations, none empty, none above the limit. */
  lemma CopyHasEntry(env: Env, inputs: seq<Input>, n: nat, c: Copy) returns (e: Entry)
    requires forall i :: i in inputs ==> ValidInput(i)
    requires CopiedIn(env, inputs, n, c) && Delivered(c.offered, c.answers) != map[]
    ensures IsEntryOf(env, inputs, n, c.offer.pid, e)
  {
    var s, i := RunLoop(env, BOOT, inputs[..n]), inputs[n];
    GroupIsDelivered(s.app, i.events, c);
    var k := InOrder(HandleAll(s.app, i.events).pending, c.offer.pid);
    TurnStores(env, s, i, k);
    AfterStore(env, s, i, k);
    e := EntryAfter(env, s, i, k).value;
    assert StoredFor(env, s, i, c.offer.pid, e, k);
  }

  lemma EntryIsDelivered(env: Env, inputs: seq<Input>, n: nat, c: Copy, e: Entry)
    requires forall i :: i in inputs ==> ValidInput(i)
    requires CopiedIn(env, inputs, n, c) && IsEntryOf(env, inputs, n, c.offer.pid, e)
    ensures Representations(e.content) == Delivered(c.offered, c.answers)
    ensures |Representations(e.content)| <= MAX_MIMES_PER_SELECTION
    ensures forall m :: m in Representations(e.content) ==> 0 < |Representations(e.content)[m]| <= MAX_CONTENT_BYTES
  {
    var s, i := RunLoop(env, BOOT, inputs[..n]), inputs[n];
    var k: nat :| StoredFor(env, s, i, c.offer.pid, e, k);
    GroupIsDelivered(s.app, i.events, c);
    TurnStores(env, s, i, k);
    AfterStore(env, s, i, k);
    DeliveredIsBounded(c.offered, c.answers);
  }

  // ---- Serving it ----

  /** The state in which the `j`-th request of the last turn is served. */
  function BeforeServing(env: Env, inputs: seq<Input>, j: nat): Loop
    requires forall i :: i in inputs ==> ValidInput(i)
    requires inputs != [] && j < |inputs[|inputs| - 1].requests|
  {
    var n := |inputs| - 1;
    ServeAll(env, Examined(env, RunLoop(env, BOOT, inputs[..n]), inputs[n]), inputs[n].requests[..j])
  }

  lemma ServingHistory(env: Env, inputs: seq<Input>, j: nat)
    requires forall i :: i in inputs ==> ValidInput(i)
    requires inputs != [] && j < |inputs[|inputs| - 1].requests|
    ensures BeforeServing(env, inputs, j).app.history == RunLoop(env, BOOT, inputs).app.history
  {
    var n := |inputs| - 1;
    var s := RunLoop(env, BOOT, inputs[..n]);
    ServeAllKeeps(env, Examined(env, s, inputs[n]), inputs[n].requests[..j]);
    TurnPersists(env, s, inputs[n]);
  }

  lemma EntryPersists(env: Env, s: Loop, i: Input, k: nat, e: Entry)
    requires ValidInput(i) && k < |TurnOps(env, s, i)| && EntryAfter(env, s, i, k) == Some(e) && IdsOk(s.app.history)
    ensures var h := Run(s.app.history, TurnOps(env, s, i)[..k + 1]);
            && IdsOk(h) && e in h.entries && Persists(h, Iterate(env, s, i).app.history)
  {
    RunKeepsIds(s.app.history, TurnOps(env, s, i)[..k + 1]);
    ExaminedPersists(env, s, i, k + 1);
    TurnPersists(env, s, i);
  }

  lemma IterateNext(env: Env, inputs: seq<Input>, n: nat)
    requires n < |inputs| && forall i :: i in inputs ==> ValidInput(i)
    ensures RunLoop(env, BOOT, inputs[..n + 1]) == Iterate(env, RunLoop(env, BOOT, inputs[..n]), inputs[n])
  {
    assert inputs[..n + 1][..n] == inputs[..n];
  }

  /** As long as the run still holds the id, it holds the very same entry. */
  lemma EntryUnchanged(env: Env, inputs: seq<Input>, n: nat, id: nat, e: Entry)
    requires forall i :: i in inputs ==> ValidInput(i)
    requires IsEntryOf(env, inputs, n, id, e) && Find(RunLoop(env, BOOT, inputs).app.history.entries, e.id).Some?
    ensures Find(RunLoop(env, BOOT, inputs).app.history.entries, e.id) == Some(e)
  {
    var s, i := RunLoop(env, BOOT, inputs[..n]), inputs[n];
    var k: nat :| StoredFor(env, s, i, id, e, k);
    var h := Run(s.app.history, TurnOps(env, s, i)[..k + 1]);
    RunMirrors(env, inputs[..n]);
    EntryPersists(env, s, i, k, e);
    IterateNext(env, inputs, n);
    TurnsPersist(env, inputs, n + 1);
    PersistsTransitive(h, RunLoop(env, BOOT, inputs[..n + 1]).app.history, RunLoop(env, BOOT, inputs).app.history);
    FoundUnchanged(h, RunLoop(env, BOOT, inputs).app.history, e);
  }

  lemma PublishedServes(o: Oracle, c: Content, offered: seq<Mime>, answers: Answers, m: Mime, serving: seq<Mime>)
    requires ValidOracle(o) && Representations(c) == Delivered(offered, answers)
    requires m in Pick(offered) && PayloadFor(answers, m).Some? && IsIteration(serving, PublishedFor(o, c))
    ensures ContentFor(PublishedFor(o, c), m, serving) == PayloadFor(answers, m)
  {
    assert m in Representations(c);
    PublishedServesStored(c, o.hash(0, Representations(c).Keys), m, serving);
  }

  /** The `j`-th request of the last turn is `q`, and serving it succeeds. */
  ghost predicate Succeeds(env: Env, inputs: seq<Input>, j: nat, q: Request)
    requires forall i :: i in inputs ==> ValidInput(i)
  {
    && inputs != [] && j < |inputs[|inputs| - 1].requests| && inputs[|inputs| - 1].requests[j] == q
    && ValidOracle(q.oracle) && Serve(env, BeforeServing(env, inputs, j), q).1 == Restored
  }

  lemma SucceedsFinds(env: Env, inputs: seq<Input>, j: nat, q: Request)
    requires forall i :: i in inputs ==> ValidInput(i)
    requires Succeeds(env, inputs, j, q)
    ensures BeforeServing(env, inputs, j).app.history == RunLoop(env, BOOT, inputs).app.history
    ensures Find(RunLoop(env, BOOT, inputs).app.history.entries, q.entryId).Some?
  {
    ServingHistory(env, inputs, j);
  }

  /** From copy to paste. Turn `n` of a run copied `e`, in one batch with whatever else. Whenever a later
      request of the run, in the same turn or any later one, succeeds in restoring that entry, the daemon
      publishes it, and serves for each type picked and delivered exactly the first `MAX_CONTENT_BYTES`
      bytes sent for it. */
  lemma CopyIsByteExact(
    env: Env, inputs: seq<Input>, n: nat, c: Copy, e: Entry, j: nat, q: Request, m: Mime, serving: seq<Mime>)
    requires forall i :: i in inputs ==> ValidInput(i)
    requires CopiedIn(env, inputs, n, c) && IsEntryOf(env, inputs, n, c.offer.pid, e)
    requires Succeeds(env, inputs, j, q) && q.entryId == e.id
    requires m in Pick(c.offered) && PayloadFor(c.answers, m).Some?
    requires IsIteration(serving, PublishedFor(q.oracle, e.content))
    ensures Find(BeforeServing(env, inputs, j).app.history.entries, q.entryId) == Some(e)
    ensures ContentFor(PublishedFor(q.oracle, e.content), m, serving) == PayloadFor(c.answers, m)
  {
    SucceedsFinds(env, inputs, j, q);
    EntryUnchanged(env, inputs, n, c.offer.pid, e);
    EntryIsDelivered(env, inputs, n, c, e);
    PublishedServes(q.oracle, e.content, c.offered, c.answers, m, serving);
  }

  /** From copy to paste, for programs that ask for another name of the text: under the same conditions, if
      a text type was delivered, there is one delivered type, the best plain one or else any, whose payload
      every alias that was not delivered is served. */
  lemma AliasIsByteExact(env: Env, inputs: seq<Input>, n: nat, c: Copy, e: Entry, j: nat, q: Request)
    returns (m: Mime)
    requires forall i :: i in inputs ==> ValidInput(i)
    requires CopiedIn(env, inputs, n, c) && IsEntryOf(env, inputs, n, c.offer.pid, e)
    requires Succeeds(env, inputs, j, q) && q.entryId == e.id
    requires TextBlobs(Delivered(c.offered, c.answers)) != map[]
    ensures m in Pick(c.offered) && PayloadFor(c.answers, m).Some?
    ensures m in FallbackTypes(Delivered(c.offered, c.answers))
    ensures forall a, serving ::
      a in TEXT_ALIASES && a !in Delivered(c.offered, c.answers) &&
      IsIteration(serving, PublishedFor(q.oracle, e.content)) ==>
        ContentFor(PublishedFor(q.oracle, e.content), a, serving) == PayloadFor(c.answers, m)
  {
    SucceedsFinds(env, inputs, j, q);
    EntryUnchanged(env, inputs, n, c.offer.pid, e);
    EntryIsDelivered(env, inputs, n, c, e);
    RunStores(env, inputs);
    ClassifiedShape(env.utf8, Representations(e.content), e.content);
    m := AliasesServeText(e.content, q.oracle.hash(0, Representations(e.content).Keys));
  }

  // ---- Where an entry comes from ----

  /** Turn `n` read exactly the entry's representations, as the last non-empty payloads of one offer. */
  ghost predicate ReadIn(env: Env, inputs: seq<Input>, n: nat, id: nat, c: Content)
    requires forall i :: i in inputs ==> ValidInput(i)
  {
    && n < |inputs|
    && var queue := HandleAll(RunLoop(env, BOOT, inputs[..n]).app, inputs[n].events).pending;
       && id in Gather(queue).groups
       && forall m :: LastPayload(queue, id, m) ==
            if m in Representations(c) then Some(Representations(c)[m]) else None
  }

  lemma {:induction false} RunOrigin(h: History, ops: seq<Op>, e: Entry) returns (k: nat)
    requires e in Run(h, ops).entries && e !in h.entries
    ensures k < |ops| && ops[k].Store? && ops[k].content == e.content
  {
    var n := |ops| - 1;
    if e in Run(h, ops[..n]).entries {
      k := RunOrigin(h, ops[..n], e);
    } else {
      k := n;
      if ops[n].Drop? {
        WithoutMembers(Run(h, ops[..n]).entries, ops[n].id);
      }
    }
  }

  lemma {:induction false} ExamineAllHolds(env: Env, s: Loop, ids: seq<nat>, e: Entry)
    requires e in ExamineAll(env, s, ids).app.history.entries
    ensures e in s.app.history.entries
  {
    if ids != [] {
      var t, id := ExamineAll(env, s, ids[..|ids| - 1]), ids[|ids| - 1];
      ExamineCases(env, t, id);
      WithoutMembers(t.app.history.entries, id);
      ExamineAllHolds(env, s, ids[..|ids| - 1], e);
    }
  }

  /** An entry that a turn added was read in that turn. */
  lemma TurnOrigin(env: Env, s: Loop, i: Input, e: Entry) returns (k: nat)
    requires ValidInput(i) && e in Iterate(env, s, i).app.history.entries && e !in s.app.history.entries
    ensures k < |TurnOrder(s, i)|
    ensures var b := Gather(HandleAll(s.app, i.events).pending);
            b.order[k] in b.groups && Representations(e.content) == b.groups[b.order[k]]
  {
    var (s1, outcomes) := Collect(env, s, i);
    TurnPersists(env, s, i);
    CollectRuns(env, s, i);
    ExamineAllHolds(env, s1, StoredIds(outcomes), e);
    k := RunOrigin(s.app.history, TurnOps(env, s, i), e);
    GatherOk(HandleAll(s.app, i.events).pending);
    TurnStores(env, s, i, k);
  }

  lemma GroupWasRead(env: Env, inputs: seq<Input>, n: nat, k: nat, c: Content)
    requires (forall i :: i in inputs ==> ValidInput(i)) && n < |inputs|
    requires var b := Gather(HandleAll(RunLoop(env, BOOT, inputs[..n]).app, inputs[n].events).pending);
             k < |b.order| && b.order[k] in b.groups && Representations(c) == b.groups[b.order[k]]
    ensures ReadIn(env, inputs, n, TurnOrder(RunLoop(env, BOOT, inputs[..n]), inputs[n])[k], c)
  {
    var queue := HandleAll(RunLoop(env, BOOT, inputs[..n]).app, inputs[n].events).pending;
    var id := Gather(queue).order[k];
    forall m ensures LastPayload(queue, id, m) ==
                     if m in Representations(c) then Some(Representations(c)[m]) else None
    {
      GatherGroups(queue, id, m);
    }
  }

  lemma ReadInLonger(env: Env, inputs: seq<Input>, m: nat, n: nat, id: nat, c: Content)
    requires (forall i :: i in inputs ==> ValidInput(i)) && m <= |inputs| && ReadIn(env, inputs[..m], n, id, c)
    ensures ReadIn(env, inputs, n, id, c)
  {
    assert inputs[..m][..n] == inputs[..n] && inputs[..m][n] == inputs[n];
  }

  lemma {:induction false} HeldOrigin(env: Env, inputs: seq<Input>, e: Entry) returns (n: nat, id: nat)
    requires forall i :: i in inputs ==> ValidInput(i)
    requires e in RunLoop(env, BOOT, inputs).app.history.entries
    ensures ReadIn(env, inputs, n, id, e.content)
  {
    var m := |inputs| - 1;
    var s := RunLoop(env, BOOT, inputs[..m]);
    if e in s.app.history.entries {
      n, id := HeldOrigin(env, inputs[..m], e);
      ReadInLonger(env, inputs, m, n, id, e.content);
    } else {
      var k := TurnOrigin(env, s, inputs[m], e);
      GroupWasRead(env, inputs, m, k, e.content);
      n, id := m, TurnOrder(s, inputs[m])[k];
    }
  }

  /** Every entry the history ever holds was read: its representations are exactly the last non-empty
      payloads that one turn read for one offer, of types that may be requested and within the limit, and
      it is what these are classified as. */
  lemma HeldWasRead(env: Env, inputs: seq<Input>, e: Entry) returns (n: nat, id: nat)
    requires forall i :: i in inputs ==> ValidInput(i)
    requires e in RunLoop(env, BOOT, inputs).app.history.entries
    ensures ReadIn(env, inputs, n, id, e.content) && ContentStored(env.utf8, e.content)
  {
    RunStores(env, inputs);
    n, id := HeldOrigin(env, inputs, e);
  }
}
