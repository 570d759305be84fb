/** The UI mirror against the history, over every turn of the loop and every run. */
module Mirrors {
  import opened Config
  import opened Seqs
  import opened Contents
  import opened Histories
  import opened Snapshots
  import opened Drains
  import opened AppStates
  import opened EventLoops

  // ---- What a drain appends ----

  /** The entries that a run of stores creates, before any eviction. */
  function Created(h: History, ops: seq<Op>): seq<Entry> {
    if ops == [] then []
    else
      var before, op := Run(h, ops[..|ops| - 1]), ops[|ops| - 1];
      Created(h, ops[..|ops| - 1]) +
      if op.Store? && !Repeats(before.entries, op.content) then [Entry(before.nextId, op.now, op.content)] else []
  }

  function IdsOf(entries: seq<Entry>): (r: seq<nat>)
    ensures |r| == |entries|
  {
    seq(|entries|, i requires 0 <= i < |entries| => entries[i].id)
  }

  ghost predicate Increasing(entries: seq<Entry>) {
    forall i, j :: 0 <= i < j < |entries| ==> entries[i].id < entries[j].id
  }

  /** Ids increase over all entries, also those evicted since, and the history is the newest of them. */
  ghost predicate WindowOf(h: History, all: seq<Entry>) {
    h.entries == Last(all, MAX_HISTORY) && Increasing(all) && forall e :: e in all ==> e.id < h.nextId
  }

  lemma StoreExtends(h: History, all: seq<Entry>, op: Op)
    requires WindowOf(h, all) && op.Store?
    ensures var e := Entry(h.nextId, op.now, op.content);
            WindowOf(Apply(h, op).0, if Repeats(h.entries, op.content) then all else all + [e])
  {
    LastAppend(all, [Entry(h.nextId, op.now, op.content)], MAX_HISTORY);
  }

  lemma CreatedSnoc(h: History, front: seq<Op>, op: Op)
    requires op.Store?
    ensures var before := Run(h, front);
            Created(h, front + [op]) ==
            if Repeats(before.entries, op.content) then Created(h, front)
            else Created(h, front) + [Entry(before.nextId, op.now, op.content)]
  {
    assert (front + [op])[..|front + [op]| - 1] == front;
  }

  lemma IdsOfSnoc(entries: seq<Entry>, e: Entry)
    ensures IdsOf(entries + [e]) == IdsOf(entries) + [e.id]
  {
  }

  lemma CreatesStep(h: History, front: seq<Op>, op: Op)
    requires WindowOf(Run(h, front), h.entries + Created(h, front)) && op.Store?
    ensures WindowOf(Run(h, front + [op]), h.entries + Created(h, front + [op]))
  {
    var made := Created(h, front);
    StoreExtends(Run(h, front), h.entries + made, op);
    CreatedSnoc(h, front, op);
    RunAppend(h, front, op);
    AppendAssoc(h.entries, made, Entry(Run(h, front).nextId, op.now, op.content));
  }

  lemma AppendAssoc(a: seq<Entry>, b: seq<Entry>, e: Entry)
    ensures a + (b + [e]) == a + b + [e]
  {
  }

  lemma {:induction false} RunCreates(h: History, ops: seq<Op>)
    requires IdsOk(h) && |h.entries| <= MAX_HISTORY && forall i :: 0 <= i < |ops| ==> ops[i].Store?
    ensures WindowOf(Run(h, ops), h.entries + Created(h, ops))
  {
    if ops == [] {
      assert h.entries + [] == h.entries;
    } else {
      var front, op := ops[..|ops| - 1], ops[|ops| - 1];
      RunCreates(h, front);
      CreatesStep(h, front, op);
      assert ops == front + [op];
    }
  }

  lemma {:induction false} CreatedIds(h: History, ops: seq<Op>)
    requires forall i :: 0 <= i < |ops| ==> ops[i].Store?
    ensures IdsOf(Created(h, ops)) == Issued(h, ops)
  {
    if ops != [] {
      var front, op := ops[..|ops| - 1], ops[|ops| - 1];
      assert ops == front + [op];
      CreatedIds(h, front);
      CreatedSnoc(h, front, op);
      IdsOfSnoc(Created(h, front), Entry(Run(h, front).nextId, op.now, op.content));
    }
  }

  // ---- What the examination announces ----

  /** The entries found under the given ids. */
  function FindAll(entries: seq<Entry>, ids: seq<nat>): seq<Entry> {
    if ids == [] then []
    else
      FindAll(entries, ids[..|ids| - 1]) +
      match Find(entries, ids[|ids| - 1])
      case None => []
      case Some(e) => [e]
  }

  lemma {:induction false} FindAllIds(entries: seq<Entry>, ids: seq<nat>)
    ensures forall e :: e in FindAll(entries, ids) ==> e.id in ids
  {
    if ids != [] {
      FindAllIds(entries, ids[..|ids| - 1]);
    }
  }

  lemma {:induction false} WithoutAppend(a: seq<Entry>, e: Entry, x: nat)
    ensures Without(a + [e], x) == Without(a, x) + if e.id != x then [e] else []
  {
    if a == [] {
      assert a + [e] == [e];
    } else {
      WithoutAppend(a[1..], e, x);
      assert (a + [e])[0] == a[0] && (a + [e])[1..] == a[1..] + [e];
    }
  }

  lemma {:induction false} FindWithout(entries: seq<Entry>, x: nat, id: nat)
    requires id != x
    ensures Find(Without(entries, x), id) == Find(entries, id)
  {
    if entries != [] {
      var rest := Without(entries[1..], x);
      FindWithout(entries[1..], x, id);
      if entries[0].id != x {
        assert ([entries[0]] + rest)[1..] == rest;
      }
    }
  }

  /** Nothing was suppressed between `s` and `t`: every entry found was announced. */
  ghost predicate AllAnnounced(s: Loop, t: Loop, ids: seq<nat>) {
    && t.suppressed == s.suppressed
    && t.app == s.app
    && t.events == s.events + Rows(FindAll(s.app.history.entries, ids))
  }

  /** Exactly the entry `x` was suppressed: it left the history, every other entry found was announced. */
  ghost predicate AllButOne(s: Loop, t: Loop, ids: seq<nat>, x: nat) {
    && x in ids
    && (exists e :: e in s.app.history.entries && e.id == x)
    && |t.suppressed| == |s.suppressed| + 1 && t.suppressed[..|s.suppressed|] == s.suppressed
    && t.suppressed[|s.suppressed|].id == x
    && t.app == s.app.(history := RemoveEntry(s.app.history, x))
    && t.events == s.events + Rows(Without(FindAll(s.app.history.entries, ids), x))
    && t.echo == None
  }

  lemma RowsSnoc(entries: seq<Entry>, e: Entry)
    ensures Rows(entries + [e]) == Rows(entries) + [SummaryOf(e)]
  {
    MapAppend(SummaryOf, entries, [e]);
  }

  lemma SplitIncreasing(ids: seq<nat>)
    requires ids != [] && forall i, j :: 0 <= i < j < |ids| ==> ids[i] < ids[j]
    ensures var front, id := ids[..|ids| - 1], ids[|ids| - 1];
            && ids == front + [id] && id !in front
            && forall i, j :: 0 <= i < j < |front| ==> front[i] < front[j]
  {
  }

  // ---- When an entry is suppressed ----

  /** The `n`-th reading of the clock comes before the end of the window of the restore. */
  predicate InWindow(env: Env, armed: Armed, n: nat) {
    env.clock(n) < armed.at + ECHO_SUPPRESS_SECS as real
  }

  predicate Matches(e: Entry, armed: Armed) {
    Preview(e.content) == armed.preview
  }

  /** The pruning before the `j`-th examination leaves the flag set. */
  predicate StaysFresh(env: Env, s: Loop, j: nat) {
    s.echo.Some? && InWindow(env, s.echo.value, s.tick + 2 * j)
  }

  /** The flag is set, and the first `n` prunings leave it set. */
  ghost predicate StillArmed(env: Env, s: Loop, n: nat) {
    s.echo.Some? && forall j :: 0 <= j < n ==> StaysFresh(env, s, j)
  }

  /** The guard of an examination, in the state it starts from: the flag is set and fresh at both readings
      of the clock, and the entry held under the id has the expected preview. */
  predicate FiresNow(env: Env, t: Loop, id: nat) {
    && t.echo.Some? && InWindow(env, t.echo.value, t.tick) && InWindow(env, t.echo.value, t.tick + 1)
    && Find(t.app.history.entries, id).Some? && Matches(Find(t.app.history.entries, id).value, t.echo.value)
  }

  /** The guard of the `n`-th examination, given that nothing was suppressed before it. */
  ghost predicate Fires(env: Env, s: Loop, ids: seq<nat>, n: nat) {
    n < |ids| && StillArmed(env, s, n) && FiresNow(env, s.(tick := s.tick + 2 * n), ids[n])
  }

  ghost predicate Suppresses(env: Env, s: Loop, ids: seq<nat>) {
    exists n: nat :: Fires(env, s, ids, n)
  }

  lemma FindAllSnoc(entries: seq<Entry>, front: seq<nat>, id: nat)
    ensures FindAll(entries, front + [id]) ==
            match Find(entries, id)
            case None => FindAll(entries, front)
            case Some(e) => FindAll(entries, front) + [e]
  {
    assert (front + [id])[..|front + [id]| - 1] == front;
  }

  /** Examining either announces the entry found, or suppresses it, or finds none. */
  lemma ExamineCases(env: Env, t: Loop, id: nat)
    ensures var u, found := Examine(env, t, id), Find(t.app.history.entries, id);
            || (found == None && u == t.(echo := u.echo, tick := u.tick))
            || (found.Some? && u == t.(echo := u.echo, tick := u.tick,
                  mirror := Last(t.mirror + [SummaryOf(found.value)], MAX_HISTORY),
                  events := t.events + [SummaryOf(found.value)]))
            || (found.Some? && t.echo.Some? && |u.suppressed| == |t.suppressed| + 1 &&
                u.suppressed[|t.suppressed|].id == id && u.suppressed[..|t.suppressed|] == t.suppressed &&
                u == t.(echo := None, tick := u.tick, suppressed := u.suppressed,
                        app := t.app.(history := RemoveEntry(t.app.history, id))))
    ensures t.echo == None ==> Examine(env, t, id).echo == None
  {
  }

  lemma AfterNone(env: Env, s: Loop, t: Loop, front: seq<nat>, id: nat)
    requires AllAnnounced(s, t, front) && id !in front
    ensures var u := Examine(env, t, id);
            AllAnnounced(s, u, front + [id]) || AllButOne(s, u, front + [id], id)
  {
    var entries := s.app.history.entries;
    FindAllSnoc(entries, front, id);
    ExamineCases(env, t, id);
    if Find(entries, id).Some? {
      var e, found := Find(entries, id).value, FindAll(entries, front);
      RowsSnoc(found, e);
      WithoutAppend(found, e, id);
      FindAllIds(entries, front);
      WithoutLength(found, id);
      assert Without(found + [e], id) == found;
    }
  }

  lemma AppendRow<T>(a: seq<T>, b: seq<T>, x: T)
    ensures a + b + [x] == a + (b + [x])
  {
  }

  /** What announcing the entry found, if any, adds to the broadcast log. */
  function RowOf(found: Option<Entry>): seq<Summary> {
    match found
    case None => []
    case Some(e) => [SummaryOf(e)]
  }

  lemma AllButOneNext(s: Loop, t: Loop, u: Loop, front: seq<nat>, x: nat, id: nat)
    requires AllButOne(s, t, front, x) && id != x
    requires u.app == t.app && u.suppressed == t.suppressed && u.echo == None
    requires u.events == t.events + RowOf(Find(s.app.history.entries, id))
    ensures AllButOne(s, u, front + [id], x)
  {
    var entries := s.app.history.entries;
    FindAllSnoc(entries, front, id);
    if Find(entries, id).Some? {
      var e, found := Find(entries, id).value, FindAll(entries, front);
      WithoutAppend(found, e, x);
      RowsSnoc(Without(found, x), e);
      AppendRow(s.events, Rows(Without(found, x)), SummaryOf(e));
    }
  }

  lemma AfterOne(env: Env, s: Loop, t: Loop, front: seq<nat>, x: nat, id: nat)
    requires AllButOne(s, t, front, x) && id !in front
    ensures AllButOne(s, Examine(env, t, id), front + [id], x)
  {
    FindWithout(s.app.history.entries, x, id);
    ExamineCases(env, t, id);
    AllButOneNext(s, t, Examine(env, t, id), front, x, id);
  }

  lemma ExamineGuard(env: Env, t: Loop, id: nat)
    ensures var u := Examine(env, t, id);
            && u.tick == t.tick + 2
            && (if FiresNow(env, t, id) then u.echo == None && u.suppressed != t.suppressed
                else u.suppressed == t.suppressed &&
                     u.echo == if t.echo.Some? && InWindow(env, t.echo.value, t.tick) then t.echo else None)
  {
  }

  lemma StillArmedNext(env: Env, s: Loop, n: nat)
    ensures StillArmed(env, s, n + 1) <==> StillArmed(env, s, n) && StaysFresh(env, s, n)
  {
  }

  lemma FiresNowSame(env: Env, t: Loop, u: Loop, id: nat)
    requires t.echo == u.echo && t.tick == u.tick && t.app == u.app
    ensures FiresNow(env, t, id) <==> FiresNow(env, u, id)
  {
  }

  lemma FiresThen(env: Env, s: Loop, t: Loop, ids: seq<nat>, n: nat)
    requires t.app == s.app && t.tick == s.tick + 2 * n && n < |ids|
    requires t.echo == if StillArmed(env, s, n) then s.echo else None
    ensures FiresNow(env, t, ids[n]) <==> Fires(env, s, ids, n)
  {
    if StillArmed(env, s, n) {
      FiresNowSame(env, t, s.(tick := s.tick + 2 * n), ids[n]);
    }
  }

  lemma StaysArmed(env: Env, s: Loop, t: Loop, n: nat)
    requires t.tick == s.tick + 2 * n
    requires t.echo == if StillArmed(env, s, n) then s.echo else None
    ensures t.echo.Some? && InWindow(env, t.echo.value, t.tick) <==> StillArmed(env, s, n + 1)
  {
    StillArmedNext(env, s, n);
  }

  lemma ExamineFires(env: Env, s: Loop, t: Loop, front: seq<nat>, id: nat)
    requires t.app == s.app && t.tick == s.tick + 2 * |front|
    requires t.echo == if StillArmed(env, s, |front|) then s.echo else None
    ensures var u := Examine(env, t, id);
            && u.tick == t.tick + 2
            && (if Fires(env, s, front + [id], |front|) then u.echo == None && u.suppressed != t.suppressed
                else u.suppressed == t.suppressed && u.echo == if StillArmed(env, s, |front| + 1) then s.echo else None)
  {
    assert (front + [id])[|front|] == id;
    FiresThen(env, s, t, front + [id], |front|);
    StaysArmed(env, s, t, |front|);
    ExamineGuard(env, t, id);
    StillArmedNext(env, s, |front|);
  }

  lemma FiresSnoc(env: Env, s: Loop, front: seq<nat>, id: nat, n: nat)
    requires n < |front|
    ensures Fires(env, s, front + [id], n) <==> Fires(env, s, front, n)
  {
    assert (front + [id])[n] == front[n];
  }

  /** The guard fires at the `n`-th id, whose entry left the history while all others were announced. */
  ghost predicate SuppressedAt(env: Env, s: Loop, t: Loop, ids: seq<nat>, n: nat) {
    Fires(env, s, ids, n) && AllButOne(s, t, ids, ids[n])
  }

  /** What examining the ids does: it suppresses one entry, on which the guard fires, and announces all
      others that are held; or the guard never fires and it announces all. */
  ghost predicate Effect(env: Env, s: Loop, t: Loop, ids: seq<nat>) {
    && t.tick == s.tick + 2 * |ids|
    && if Suppresses(env, s, ids) then t.echo == None && exists n: nat :: SuppressedAt(env, s, t, ids, n)
       else AllAnnounced(s, t, ids) && t.echo == if StillArmed(env, s, |ids|) then s.echo else None
  }

  /** One turn suppresses at most one entry and announces all others that are still held; it suppresses
      one if and only if the guard fires at some examination. */
  lemma {:induction false} ExamineAllEffect(env: Env, s: Loop, ids: seq<nat>)
    requires forall i, j :: 0 <= i < j < |ids| ==> ids[i] < ids[j]
    ensures Effect(env, s, ExamineAll(env, s, ids), ids)
  {
    if ids != [] {
      var front, id := ids[..|ids| - 1], ids[|ids| - 1];
      SplitIncreasing(ids);
      ExamineAllEffect(env, s, front);
      forall n | 0 <= n < |front| ensures Fires(env, s, ids, n) <==> Fires(env, s, front, n) {
        FiresSnoc(env, s, front, id, n);
      }
      if Suppresses(env, s, front) {
        EffectAfterOne(env, s, ExamineAll(env, s, front), front, id);
      } else {
        EffectAfterNone(env, s, ExamineAll(env, s, front), front, id);
      }
    }
  }

  lemma EffectCases(env: Env, s: Loop, t: Loop, ids: seq<nat>) returns (x: nat)
    requires Effect(env, s, t, ids)
    ensures if Suppresses(env, s, ids) then AllButOne(s, t, ids, x) else AllAnnounced(s, t, ids)
  {
    x := 0;
    if Suppresses(env, s, ids) {
      var n: nat :| SuppressedAt(env, s, t, ids, n);
      x := ids[n];
    }
  }

  lemma SuppressedLater(env: Env, s: Loop, t: Loop, front: seq<nat>, id: nat, n: nat)
    requires SuppressedAt(env, s, t, front, n) && id !in front
    ensures SuppressedAt(env, s, Examine(env, t, id), front + [id], n)
  {
    AfterOne(env, s, t, front, front[n], id);
    FiresSnoc(env, s, front, id, n);
    assert (front + [id])[n] == front[n];
  }

  lemma EffectAfterOne(env: Env, s: Loop, t: Loop, front: seq<nat>, id: nat)
    requires Effect(env, s, t, front) && Suppresses(env, s, front) && id !in front
    ensures Effect(env, s, Examine(env, t, id), front + [id])
  {
    var n: nat :| SuppressedAt(env, s, t, front, n);
    SuppressedLater(env, s, t, front, id, n);
    ExamineTicks(env, t, id);
  }

  lemma ExamineTicks(env: Env, t: Loop, id: nat)
    ensures Examine(env, t, id).tick == t.tick + 2
    ensures t.echo == None ==> Examine(env, t, id).echo == None
  {
  }

  lemma FiredEffect(env: Env, s: Loop, u: Loop, front: seq<nat>, id: nat)
    requires AllAnnounced(s, u, front + [id]) || AllButOne(s, u, front + [id], id)
    requires Fires(env, s, front + [id], |front|) && u.suppressed != s.suppressed
    requires u.tick == s.tick + 2 * |front| + 2 && u.echo == None
    ensures Effect(env, s, u, front + [id])
  {
    assert (front + [id])[|front|] == id;
    assert SuppressedAt(env, s, u, front + [id], |front|);
  }

  lemma SilentEffect(env: Env, s: Loop, u: Loop, front: seq<nat>, id: nat)
    requires AllAnnounced(s, u, front + [id]) || AllButOne(s, u, front + [id], id)
    requires (forall n: nat :: n <= |front| ==> !Fires(env, s, front + [id], n)) && u.suppressed == s.suppressed
    requires u.tick == s.tick + 2 * |front| + 2 && u.echo == if StillArmed(env, s, |front| + 1) then s.echo else None
    ensures Effect(env, s, u, front + [id])
  {
    assert !Suppresses(env, s, front + [id]);
  }

  lemma EffectAfterNone(env: Env, s: Loop, t: Loop, front: seq<nat>, id: nat)
    requires Effect(env, s, t, front) && !Suppresses(env, s, front) && id !in front
    requires forall n :: 0 <= n < |front| ==> !Fires(env, s, front + [id], n)
    ensures Effect(env, s, Examine(env, t, id), front + [id])
  {
    AfterNone(env, s, t, front, id);
    ExamineFires(env, s, t, front, id);
    if Fires(env, s, front + [id], |front|) {
      FiredEffect(env, s, Examine(env, t, id), front, id);
    } else {
      SilentEffect(env, s, Examine(env, t, id), front, id);
    }
  }

  // ---- One turn of the loop ----

  lemma {:induction false} HandleAllKeepsHistory(a: App, events: seq<Event>)
    ensures HandleAll(a, events).history == a.history
  {
    if events != [] {
      var front, e := HandleAll(a, events[..|events| - 1]), events[|events| - 1];
      HandleAllKeepsHistory(a, events[..|events| - 1]);
      HandleKeepsHistory(front, e);
    }
  }

  lemma {:induction false} RequestKeepsHistory(a: App, o: Wire.Offer, mimes: seq<Mime>, answers: Answers)
    ensures RequestAll(a, o, mimes, answers).history == a.history
  {
    if mimes != [] {
      RequestKeepsHistory(a, o, mimes[..|mimes| - 1], answers);
    }
  }

  lemma HandleKeepsHistory(a: App, e: Event)
    ensures Handle(a, e).history == a.history
  {
    if e.item.Selection? && e.item.selected.Some? {
      var o := e.item.selected.value;
      var a1 := a.(trace := a.trace + [e.item]);
      var b := if a1.selection.Some? && a1.selection.value != o then ClearSelection(a1) else a1;
      var c := b.(selection := Some(o));
      if o.pid in c.offers {
        RequestKeepsHistory(c, o, Mimes.Pick(c.offers[o.pid]), e.answers);
      }
    }
  }

  /** The stores that one turn performs. */
  function TurnOps(env: Env, s: Loop, i: Input): (ops: seq<Op>)
    requires ValidInput(i)
    ensures forall k :: 0 <= k < |ops| ==> ops[k].Store?
  {
    var b := Gather(HandleAll(s.app, i.events).pending);
    GatherCommittable(HandleAll(s.app, i.events).pending);
    StoreOps(env.utf8, i.oracle, b.order, b)
  }

  lemma {:induction false} NoneStored(outcomes: seq<ReadOutcome>)
    requires forall o :: o in outcomes ==> !o.Stored?
    ensures StoredIds(outcomes) == []
  {
    if outcomes != [] {
      NoneStored(outcomes[..|outcomes| - 1]);
    }
  }

  lemma CollectRuns(env: Env, s: Loop, i: Input)
    requires ValidInput(i)
    ensures var (s1, outcomes) := Collect(env, s, i);
            && s1 == s.(app := s1.app)
            && s1.app.history == Run(s.app.history, TurnOps(env, s, i))
            && StoredIds(outcomes) == Issued(s.app.history, TurnOps(env, s, i))
  {
    var a := HandleAll(s.app, i.events);
    var b := Gather(a.pending);
    HandleAllKeepsHistory(s.app, i.events);
    GatherCommittable(a.pending);
    GatherCounts(a.pending);
    NoneStored(b.outcomes);
    CommitRefinesRun(env.utf8, i.oracle, a.history, b.order, b);
    StoredIdsAppend(b.outcomes, CommitAll(env.utf8, i.oracle, a.history, b.order, b).1);
  }

  lemma NotHeld(all: seq<Entry>, kept: seq<Entry>, k: nat)
    requires Increasing(all) && |kept| <= |all| && kept == all[|all| - |kept|..] && k < |all| - |kept|
    ensures Find(kept, all[k].id) == None
  {
    forall e | e in kept ensures e.id != all[k].id {
      var j :| 0 <= j < |kept| && kept[j] == e;
      assert e == all[|all| - |kept| + j];
    }
  }

  lemma HeldIff(h: History, all: seq<Entry>, k: nat)
    requires WindowOf(h, all) && k < |all|
    ensures Find(h.entries, all[k].id) == if k < |all| - |h.entries| then None else Some(all[k])
  {
    var gone := |all| - |h.entries|;
    if k < gone {
      NotHeld(all, h.entries, k);
    } else {
      assert h.entries[k - gone] == all[k];
      FindAt(h.entries, k - gone);
    }
  }

  /** How many of the created entries were evicted again. */
  function Evicted(made: seq<Entry>): nat {
    if |made| <= MAX_HISTORY then 0 else |made| - MAX_HISTORY
  }

  lemma CreatedHeldIff(h: History, before: seq<Entry>, made: seq<Entry>, k: nat)
    requires WindowOf(h, before + made) && k < |made|
    ensures Find(h.entries, made[k].id) == if k < Evicted(made) then None else Some(made[k])
  {
    HeldIff(h, before + made, |before| + k);
  }

  function Held(made: seq<Entry>, n: nat): seq<Entry>
    requires n <= |made|
  {
    if n <= Evicted(made) then [] else made[Evicted(made)..n]
  }

  lemma HeldSnoc(made: seq<Entry>, n: nat)
    requires n < |made|
    ensures Held(made, n + 1) == if n < Evicted(made) then Held(made, n) else Held(made, n) + [made[n]]
    ensures IdsOf(made[..n + 1]) == IdsOf(made[..n]) + [made[n].id]
  {
    assert made[..n + 1] == made[..n] + [made[n]];
  }

  /** Of the created entries, the examination finds those that were not evicted again. */
  lemma {:induction false} FindCreated(h: History, before: seq<Entry>, made: seq<Entry>, n: nat)
    requires WindowOf(h, before + made) && n <= |made|
    ensures FindAll(h.entries, IdsOf(made[..n])) == Held(made, n)
  {
    if n > 0 {
      FindCreated(h, before, made, n - 1);
      CreatedHeldIff(h, before, made, n - 1);
      FindAllSnoc(h.entries, IdsOf(made[..n - 1]), made[n - 1].id);
      HeldSnoc(made, n - 1);
    }
  }

  /** The state after the outcomes of a turn were examined. */
  function Examined(env: Env, s: Loop, i: Input): Loop
    requires ValidInput(i)
  {
    var (s1, outcomes) := Collect(env, s, i);
    ExamineAll(env, s1, StoredIds(outcomes))
  }

  /** The entries a turn creates that are still held when they are examined. */
  function Fresh(env: Env, s: Loop, i: Input): (r: seq<Entry>)
    requires ValidInput(i)
    ensures |r| <= MAX_HISTORY
  {
    Last(Created(s.app.history, TurnOps(env, s, i)), MAX_HISTORY)
  }

  ghost predicate HistoryOk(h: History) {
    IdsOk(h) && |h.entries| <= MAX_HISTORY
  }

  /** What a turn did up to its restores: `announced` was appended to the history, whose capacity
      shrinks by the suppressed echo, and its rows were pushed to the mirror and broadcast. */
  ghost predicate TurnEffect(s: Loop, t: Loop, made: seq<Entry>, announced: seq<Entry>) {
    && t.app.history.entries ==
         Last(s.app.history.entries + announced, if t.suppressed == s.suppressed then MAX_HISTORY else MAX_HISTORY - 1)
    && t.events == s.events + Rows(announced)
    && (t.suppressed == s.suppressed ==> announced == made)
    && (t.suppressed != s.suppressed ==>
          && |announced| == |made| - 1 && |t.suppressed| == |s.suppressed| + 1
          && (exists k :: 0 <= k < |made| && announced == made[..k] + made[k + 1..] &&
                          t.suppressed == s.suppressed + [t.suppressed[|s.suppressed|]] &&
                          t.suppressed[|s.suppressed|].id == made[k].id))
  }

  lemma LastKeepsTail<T>(a: seq<T>, b: seq<T>, n: nat)
    requires |b| <= n
    ensures Last(a + b, n) == Last(a, n - |b|) + b
  {
  }

  lemma CutMiddle<T>(a: seq<T>, b: seq<T>, k: nat)
    requires k < |b|
    ensures (a + b)[..|a| + k] + (a + b)[|a| + k + 1..] == a + (b[..k] + b[k + 1..])
    ensures (a + b)[|a| + k] == b[k]
  {
  }

  lemma DropFromWindow(before: seq<Entry>, made: seq<Entry>, k: nat)
    requires |made| <= MAX_HISTORY && k < |made| && Increasing(Last(before + made, MAX_HISTORY))
    ensures Without(Last(before + made, MAX_HISTORY), made[k].id) ==
            Last(before + (made[..k] + made[k + 1..]), MAX_HISTORY - 1)
  {
    var front, rest := Last(before, MAX_HISTORY - |made|), made[..k] + made[k + 1..];
    LastKeepsTail(before, made, MAX_HISTORY);
    LastKeepsTail(before, rest, MAX_HISTORY - 1);
    CutMiddle(front, made, k);
    WithoutAt(front + made, |front| + k);
  }

  /** A suppressed id is one of the created entries that are still held. */
  lemma SuppressedIsFresh(h: History, before: seq<Entry>, made: seq<Entry>, x: nat) returns (k: nat)
    requires WindowOf(h, before + made) && x in IdsOf(made) && exists e :: e in h.entries && e.id == x
    ensures k < |Last(made, MAX_HISTORY)| && Last(made, MAX_HISTORY)[k].id == x
    ensures Find(h.entries, x) == Some(Last(made, MAX_HISTORY)[k])
  {
    var j :| 0 <= j < |made| && IdsOf(made)[j] == x;
    CreatedHeldIff(h, before, made, j);
    assert Find(h.entries, x) != None;
    k := j - Evicted(made);
  }

  lemma SuppressedWindow(before: seq<Entry>, made: seq<Entry>, k: nat)
    requires Increasing(before + made) && k < |Last(made, MAX_HISTORY)|
    ensures var fresh' := Last(made, MAX_HISTORY);
            var announced := fresh'[..k] + fresh'[k + 1..];
            && Without(fresh', fresh'[k].id) == announced
            && Without(Last(before + made, MAX_HISTORY), fresh'[k].id) == Last(before + announced, MAX_HISTORY - 1)
  {
    var fresh' := Last(made, MAX_HISTORY);
    LastOfLast(before, made, MAX_HISTORY);
    LastIncreasing(before + made, fresh');
    WithoutAt(fresh', k);
    DropFromWindow(before, fresh', k);
  }

  lemma SuppressedEffect(s: Loop, s1: Loop, t: Loop, made: seq<Entry>, x: nat) returns (announced: seq<Entry>)
    requires WindowOf(s1.app.history, s.app.history.entries + made)
    requires s1 == s.(app := s1.app) && FindAll(s1.app.history.entries, IdsOf(made)) == Last(made, MAX_HISTORY)
    requires AllButOne(s1, t, IdsOf(made), x)
    ensures TurnEffect(s, t, Last(made, MAX_HISTORY), announced) && t.suppressed != s.suppressed
  {
    var k := SuppressedIsFresh(s1.app.history, s.app.history.entries, made, x);
    SuppressedWindow(s.app.history.entries, made, k);
    var fresh' := Last(made, MAX_HISTORY);
    announced := fresh'[..k] + fresh'[k + 1..];
    SplitLast(t.suppressed, |s.suppressed|);
  }

  lemma AnnouncedEffect(s: Loop, s1: Loop, t: Loop, made: seq<Entry>)
    requires WindowOf(s1.app.history, s.app.history.entries + made)
    requires s1 == s.(app := s1.app) && FindAll(s1.app.history.entries, IdsOf(made)) == Last(made, MAX_HISTORY)
    requires AllAnnounced(s1, t, IdsOf(made))
    ensures TurnEffect(s, t, Last(made, MAX_HISTORY), Last(made, MAX_HISTORY)) && t.suppressed == s.suppressed
  {
    LastOfLast(s.app.history.entries, made, MAX_HISTORY);
  }

  lemma SplitLast<T>(a: seq<T>, n: nat)
    requires |a| == n + 1
    ensures a == a[..n] + [a[n]]
  {
  }

  lemma LastIncreasing(all: seq<Entry>, last: seq<Entry>)
    requires Increasing(all) && |last| <= |all| && last == all[|all| - |last|..]
    ensures Increasing(last) && Increasing(Last(all, MAX_HISTORY))
  {
  }

  lemma StoresSetup(h: History, ops: seq<Op>)
    requires HistoryOk(h) && forall k :: 0 <= k < |ops| ==> ops[k].Store?
    ensures var made, ids := Created(h, ops), Issued(h, ops);
            && WindowOf(Run(h, ops), h.entries + made)
            && ids == IdsOf(made)
            && FindAll(Run(h, ops).entries, ids) == Last(made, MAX_HISTORY)
  {
    var made := Created(h, ops);
    RunCreates(h, ops);
    CreatedIds(h, ops);
    FindCreated(Run(h, ops), h.entries, made, |made|);
    assert made[..|made|] == made;
    assert Held(made, |made|) == Last(made, MAX_HISTORY);
  }

  lemma SuffixIncreasing(before: seq<Entry>, made: seq<Entry>)
    requires Increasing(before + made)
    ensures Increasing(Last(made, MAX_HISTORY))
    ensures forall i, j :: 0 <= i < j < |made| ==> IdsOf(made)[i] < IdsOf(made)[j]
  {
    IdsIncrease(before + made, made);
    LastIncreasing(before + made, Last(made, MAX_HISTORY));
  }

  /** What the examination of a turn starts from: the stored ids are those of the created entries, and
      it finds the fresh ones under them. */
  lemma TurnSetup(env: Env, s: Loop, i: Input)
    requires ValidInput(i) && HistoryOk(s.app.history)
    ensures var (s1, outcomes) := Collect(env, s, i);
            var made, ids := Created(s.app.history, TurnOps(env, s, i)), StoredIds(outcomes);
            && s1 == s.(app := s1.app)
            && WindowOf(s1.app.history, s.app.history.entries + made)
            && ids == IdsOf(made)
            && (forall i, j :: 0 <= i < j < |ids| ==> ids[i] < ids[j])
            && FindAll(s1.app.history.entries, ids) == Fresh(env, s, i)
            && Increasing(Fresh(env, s, i))
  {
    CollectRuns(env, s, i);
    StoresSetup(s.app.history, TurnOps(env, s, i));
    SuffixIncreasing(s.app.history.entries, Created(s.app.history, TurnOps(env, s, i)));
  }

  /** Whether a turn suppresses, by the guards of its examinations. */
  ghost predicate TurnSuppresses(env: Env, s: Loop, i: Input)
    requires ValidInput(i)
  {
    var (s1, outcomes) := Collect(env, s, i);
    Suppresses(env, s1, StoredIds(outcomes))
  }

  lemma TurnEffectCases(s: Loop, s1: Loop, t: Loop, made: seq<Entry>, x: nat, suppresses: bool)
    returns (announced: seq<Entry>)
    requires WindowOf(s1.app.history, s.app.history.entries + made)
    requires s1 == s.(app := s1.app) && FindAll(s1.app.history.entries, IdsOf(made)) == Last(made, MAX_HISTORY)
    requires if suppresses then AllButOne(s1, t, IdsOf(made), x) else AllAnnounced(s1, t, IdsOf(made))
    ensures TurnEffect(s, t, Last(made, MAX_HISTORY), announced)
    ensures suppresses <==> t.suppressed != s.suppressed
  {
    if suppresses {
      announced := SuppressedEffect(s, s1, t, made, x);
    } else {
      announced := Last(made, MAX_HISTORY);
      AnnouncedEffect(s, s1, t, made);
    }
  }

  lemma TurnHasEffect(env: Env, s: Loop, i: Input) returns (announced: seq<Entry>)
    requires ValidInput(i) && HistoryOk(s.app.history)
    ensures TurnEffect(s, Examined(env, s, i), Fresh(env, s, i), announced)
    ensures TurnSuppresses(env, s, i) <==> Examined(env, s, i).suppressed != s.suppressed
  {
    var (s1, outcomes) := Collect(env, s, i);
    TurnSetup(env, s, i);
    ExamineAllEffect(env, s1, StoredIds(outcomes));
    var x := EffectCases(env, s1, Examined(env, s, i), StoredIds(outcomes));
    announced := TurnEffectCases(s, s1, Examined(env, s, i), Created(s.app.history, TurnOps(env, s, i)), x,
                                 TurnSuppresses(env, s, i));
  }

  lemma IdsIncrease(all: seq<Entry>, made: seq<Entry>)
    requires Increasing(all) && |made| <= |all| && made == all[|all| - |made|..]
    ensures forall i, j :: 0 <= i < j < |made| ==> IdsOf(made)[i] < IdsOf(made)[j]
  {
  }

  // ---- The mirror against the history ----

  ghost predicate Exact(s: Loop) {
    s.mirror == Rows(s.app.history.entries)
  }

  ghost predicate ExtraRow<T>(m: seq<T>, rows: seq<T>) {
    |m| == MAX_HISTORY && m[1..] == rows
  }

  /** The mirror is full and holds one row more than the history: its oldest. */
  ghost predicate OneExtra(s: Loop) {
    ExtraRow(s.mirror, Rows(s.app.history.entries))
  }

  ghost predicate Mirrored(s: Loop) {
    HistoryOk(s.app.history) && s.mirror == Last(s.events, MAX_HISTORY) && (Exact(s) || OneExtra(s))
  }

  lemma ExamineKeepsWindow(env: Env, s: Loop, id: nat)
    requires s.mirror == Last(s.events, MAX_HISTORY)
    ensures var t := Examine(env, s, id); t.mirror == Last(t.events, MAX_HISTORY)
    ensures IdsOk(s.app.history) ==> IdsOk(Examine(env, s, id).app.history)
  {
    ExamineCases(env, s, id);
    if Find(s.app.history.entries, id).Some? {
      LastAppend(s.events, [SummaryOf(Find(s.app.history.entries, id).value)], MAX_HISTORY);
      if IdsOk(s.app.history) {
        RemoveKeepsIds(s.app.history, id);
      }
    }
  }

  /** The mirror is a window on the broadcast log. */
  lemma {:induction false} ExamineAllKeepsWindow(env: Env, s: Loop, ids: seq<nat>)
    requires s.mirror == Last(s.events, MAX_HISTORY) && IdsOk(s.app.history)
    ensures var t := ExamineAll(env, s, ids); t.mirror == Last(t.events, MAX_HISTORY) && IdsOk(t.app.history)
  {
    if ids != [] {
      ExamineAllKeepsWindow(env, s, ids[..|ids| - 1]);
      ExamineKeepsWindow(env, ExamineAll(env, s, ids[..|ids| - 1]), ids[|ids| - 1]);
    }
  }

  /** Restores touch neither the history nor what was announced. */
  lemma {:induction false} ServeAllKeeps(env: Env, s: Loop, requests: seq<Request>)
    requires forall r :: r in requests ==> ValidOracle(r.oracle)
    ensures var t := ServeAll(env, s, requests);
            && t.app.history == s.app.history && t.mirror == s.mirror && t.events == s.events
            && t.suppressed == s.suppressed && t.iteration == s.iteration
  {
    if requests != [] {
      ServeAllKeeps(env, s, requests[..|requests| - 1]);
    }
  }

  lemma FromExact<T>(rows: seq<T>, more: seq<T>, cap: nat)
    requires MAX_HISTORY - 1 <= cap <= MAX_HISTORY
    ensures var after, m := Last(rows + more, cap), Last(rows + more, MAX_HISTORY);
            (m == after || ExtraRow(m, after)) && (m == after <==> cap == MAX_HISTORY || |rows| + |more| <= cap)
  {
  }

  lemma FromExtra<T>(x: T, rows: seq<T>, more: seq<T>, cap: nat)
    requires MAX_HISTORY - 1 <= cap <= MAX_HISTORY && |rows| == MAX_HISTORY - 1
    ensures var after, m := Last(rows + more, cap), Last([x] + rows + more, MAX_HISTORY);
            (m == after || ExtraRow(m, after)) && (m == after <==> cap == MAX_HISTORY && more != [])
  {
    if more == [] {
      assert [x] + rows + more == [x] + rows && rows + more == rows;
    } else {
      assert [x] + rows + more == [x] + (rows + more);
      LastOfLast([x], rows + more, MAX_HISTORY);
      assert Last([x] + (rows + more), MAX_HISTORY) == Last(rows + more, MAX_HISTORY);
    }
  }

  lemma FromEither<T>(m: seq<T>, rows: seq<T>, more: seq<T>, cap: nat)
    requires MAX_HISTORY - 1 <= cap <= MAX_HISTORY && (m == rows || ExtraRow(m, rows))
    ensures var after, m' := Last(rows + more, cap), Last(m + more, MAX_HISTORY);
            && (m' == after || ExtraRow(m', after))
            && (m' == after <==>
                if cap == MAX_HISTORY then m == rows || more != [] else m == rows && |rows| + |more| <= cap)
  {
    if m == rows {
      FromExact(rows, more, cap);
    } else {
      assert m == [m[0]] + rows;
      FromExtra(m[0], rows, more, cap);
    }
  }

  lemma ExactOrExtra(before: seq<Entry>, mirror: seq<Summary>, announced: seq<Entry>, cap: nat)
    requires mirror == Rows(before) || ExtraRow(mirror, Rows(before))
    requires MAX_HISTORY - 1 <= cap <= MAX_HISTORY
    ensures var after, m := Last(before + announced, cap), Last(mirror + Rows(announced), MAX_HISTORY);
            && (m == Rows(after) || ExtraRow(m, Rows(after)))
            && (m == Rows(after) <==>
                if cap == MAX_HISTORY then mirror == Rows(before) || announced != []
                else mirror == Rows(before) && |before| + |announced| <= cap)
  {
    RowsOfWindow(before, announced, cap);
    FromEither(mirror, Rows(before), Rows(announced), cap);
  }

  lemma RowsOfWindow(before: seq<Entry>, announced: seq<Entry>, cap: nat)
    ensures Rows(Last(before + announced, cap)) == Last(Rows(before) + Rows(announced), cap)
  {
    MapAppend(SummaryOf, before, announced);
    MapLast(SummaryOf, before + announced, cap);
  }

  /** One turn keeps the mirror row for row equal to the history, or one oldest row longer and full. When
      no guard fires in its examinations, it ends exact if and only if it was exact before or stores
      something; when one fires, if and only if it was exact before and nothing has to be evicted. */
  lemma TurnMirrors(env: Env, s: Loop, i: Input)
    requires ValidInput(i) && Mirrored(s)
    ensures var t, stored := Iterate(env, s, i), |Fresh(env, s, i)|;
            && Mirrored(t)
            && (t.suppressed != s.suppressed <==> TurnSuppresses(env, s, i))
            && (Exact(t) <==>
                if TurnSuppresses(env, s, i) then Exact(s) && |s.app.history.entries| + stored <= MAX_HISTORY
                else Exact(s) || stored > 0)
  {
    var announced := TurnHasEffect(env, s, i);
    var x := Examined(env, s, i);
    CollectRuns(env, s, i);
    CollectKeepsIds(env, s, i);
    ExamineAllKeepsWindow(env, Collect(env, s, i).0, StoredIds(Collect(env, s, i).1));
    ServeAllKeeps(env, x, i.requests);
    LastAppend(s.events, Rows(announced), MAX_HISTORY);
    ExactOrExtra(s.app.history.entries, s.mirror, announced,
                 if x.suppressed == s.suppressed then MAX_HISTORY else MAX_HISTORY - 1);
  }

  lemma CollectKeepsIds(env: Env, s: Loop, i: Input)
    requires ValidInput(i) && IdsOk(s.app.history)
    ensures IdsOk(Collect(env, s, i).0.app.history)
    ensures s.app.history.nextId <= Collect(env, s, i).0.app.history.nextId
  {
    CollectRuns(env, s, i);
    RunKeepsIds(s.app.history, TurnOps(env, s, i));
  }

  /** After every turn of every run, the mirror equals the history or has one extra oldest row. */
  lemma {:induction false} RunMirrors(env: Env, inputs: seq<Input>)
    requires forall i :: i in inputs ==> ValidInput(i)
    ensures Mirrored(RunLoop(env, BOOT, inputs))
  {
    if inputs != [] {
      RunMirrors(env, inputs[..|inputs| - 1]);
      TurnMirrors(env, RunLoop(env, BOOT, inputs[..|inputs| - 1]), inputs[|inputs| - 1]);
    }
  }
}
