/** Echo suppression as a property of turns: while the flag is armed and fresh, which of the entries a
    turn stores are announced. */
module EchoRuns {
  import opened Config
  import opened Seqs
  import opened Mimes
  import opened Contents
  import opened Histories
  import opened Snapshots
  import opened Drains
  import opened Restores
  import opened AppStates
  import opened EventLoops
  import opened Mirrors
  import opened Echoes
  import opened Batches
  import opened Lifetimes

  /** Every reading of the clock from `from` up to `to` falls within the window of the restore. */
  ghost predicate WithinWindow(env: Env, armed: Armed, from: nat, to: nat) {
    forall n :: from <= n < to ==> InWindow(env, armed, n)
  }

  // ---- Examining with the flag armed ----

  lemma {:induction false} FoundUnder(entries: seq<Entry>, ids: seq<nat>, e: Entry) returns (n: nat)
    requires e in FindAll(entries, ids)
    ensures n < |ids| && Find(entries, ids[n]) == Some(e)
  {
    var m := |ids| - 1;
    if e in FindAll(entries, ids[..m]) {
      n := FoundUnder(entries, ids[..m], e);
    } else {
      n := m;
    }
  }

  /** With the flag armed and fresh throughout, the guard is the preview alone. */
  lemma FiresOnMatch(env: Env, s: Loop, ids: seq<nat>, armed: Armed, n: nat)
    requires s.echo == Some(armed) && WithinWindow(env, armed, s.tick, s.tick + 2 * |ids|) && n < |ids|
    ensures StillArmed(env, s, |ids|)
    ensures Fires(env, s, ids, n) <==>
            Find(s.app.history.entries, ids[n]).Some? && Matches(Find(s.app.history.entries, ids[n]).value, armed)
  {
    assert InWindow(env, armed, s.tick + 2 * n) && InWindow(env, armed, s.tick + 2 * n + 1);
    forall j | 0 <= j < |ids| ensures StaysFresh(env, s, j) {
      assert InWindow(env, armed, s.tick + 2 * j);
    }
  }

  /** What examining does while the flag stays armed: a held entry is suppressed if and only if one of
      them matches, and the one suppressed does. */
  ghost predicate ArmedEffect(s: Loop, t: Loop, ids: seq<nat>, armed: Armed) {
    var entries := s.app.history.entries;
    || (AllAnnounced(s, t, ids) && t.echo == Some(armed) &&
        forall e :: e in FindAll(entries, ids) ==> !Matches(e, armed))
    || exists x: nat :: AllButOne(s, t, ids, x) && Find(entries, x).Some? && Matches(Find(entries, x).value, armed)
  }

  lemma ArmedExamined(env: Env, s: Loop, ids: seq<nat>, armed: Armed)
    requires s.echo == Some(armed) && WithinWindow(env, armed, s.tick, s.tick + 2 * |ids|)
    requires forall i, j :: 0 <= i < j < |ids| ==> ids[i] < ids[j]
    ensures ArmedEffect(s, ExamineAll(env, s, ids), ids, armed)
  {
    var t := ExamineAll(env, s, ids);
    ExamineAllEffect(env, s, ids);
    if Suppresses(env, s, ids) {
      var n: nat :| SuppressedAt(env, s, t, ids, n);
      FiresOnMatch(env, s, ids, armed, n);
      assert AllButOne(s, t, ids, ids[n]);
    } else {
      NoneMatches(env, s, ids, armed);
    }
  }

  lemma NoneMatches(env: Env, s: Loop, ids: seq<nat>, armed: Armed)
    requires s.echo == Some(armed) && WithinWindow(env, armed, s.tick, s.tick + 2 * |ids|)
    requires !Suppresses(env, s, ids)
    ensures StillArmed(env, s, |ids|)
    ensures forall e :: e in FindAll(s.app.history.entries, ids) ==> !Matches(e, armed)
  {
    if ids != [] {
      FiresOnMatch(env, s, ids, armed, 0);
    }
    forall e | e in FindAll(s.app.history.entries, ids) ensures !Matches(e, armed) {
      var n := FoundUnder(s.app.history.entries, ids, e);
      FiresOnMatch(env, s, ids, armed, n);
    }
  }

  // ---- A turn with the flag armed ----

  /** At most one of the entries has the expected preview. */
  ghost predicate AtMostOneMatch(entries: seq<Entry>, armed: Armed) {
    forall i, j :: 0 <= i < j < |entries| ==> !(Matches(entries[i], armed) && Matches(entries[j], armed))
  }

  function NotMatching(armed: Armed): Entry -> bool {
    e => !Matches(e, armed)
  }

  /** The entries that do not match. */
  function Others(entries: seq<Entry>, armed: Armed): seq<Entry> {
    Filter(NotMatching(armed), entries)
  }

  lemma OthersAll(entries: seq<Entry>, armed: Armed)
    requires forall i :: 0 <= i < |entries| ==> !Matches(entries[i], armed)
    ensures Others(entries, armed) == entries
  {
    FilterAll(NotMatching(armed), entries);
  }

  lemma OthersWithout(entries: seq<Entry>, armed: Armed, k: nat)
    requires k < |entries| && Matches(entries[k], armed) && AtMostOneMatch(entries, armed)
    ensures Others(entries, armed) == entries[..k] + entries[k + 1..]
  {
    FilterWithout(NotMatching(armed), entries, k);
  }

  lemma DropMatch(entries: seq<Entry>, armed: Armed, k: nat)
    requires Increasing(entries) && AtMostOneMatch(entries, armed) && k < |entries| && Matches(entries[k], armed)
    ensures Without(entries, entries[k].id) == Others(entries, armed) && |Others(entries, armed)| < |entries|
  {
    OthersWithout(entries, armed, k);
    WithoutAt(entries, k);
  }

  /** No reading of the clock that the examinations of the turn take is past the window. */
  ghost predicate TurnInWindow(env: Env, s: Loop, i: Input, armed: Armed)
    requires ValidInput(i)
  {
    WithinWindow(env, armed, s.tick, s.tick + 2 * |StoredIds(Collect(env, s, i).1)|)
  }

  /** A turn in which the flag is armed and fresh throughout. */
  ghost predicate ArmedTurn(env: Env, s: Loop, i: Input, armed: Armed)
    requires ValidInput(i)
  {
    s.echo == Some(armed) && TurnInWindow(env, s, i, armed)
  }

  /** The entries that do not match are announced; the one that does, if any, leaves the history. */
  ghost predicate OthersShown(s: Loop, s1: Loop, t: Loop, fresh': seq<Entry>, armed: Armed) {
    && t.events == s.events + Rows(Others(fresh', armed))
    && (Others(fresh', armed) == fresh' ==>
          t.echo == Some(armed) && t.suppressed == s.suppressed && t.app.history == s1.app.history)
    && (forall k :: 0 <= k < |fresh'| && Matches(fresh'[k], armed) ==>
          t.app.history == RemoveEntry(s1.app.history, fresh'[k].id))
  }

  lemma MatchSuppressed(s: Loop, s1: Loop, t: Loop, made: seq<Entry>, x: nat, armed: Armed)
    requires s1 == s.(app := s1.app) && WindowOf(s1.app.history, s.app.history.entries + made)
    requires AllButOne(s1, t, IdsOf(made), x)
    requires FindAll(s1.app.history.entries, IdsOf(made)) == Last(made, MAX_HISTORY)
    requires Increasing(Last(made, MAX_HISTORY)) && AtMostOneMatch(Last(made, MAX_HISTORY), armed)
    requires Find(s1.app.history.entries, x).Some? && Matches(Find(s1.app.history.entries, x).value, armed)
    ensures OthersShown(s, s1, t, Last(made, MAX_HISTORY), armed)
  {
    var k := SuppressedIsFresh(s1.app.history, s.app.history.entries, made, x);
    DropMatch(Last(made, MAX_HISTORY), armed, k);
    UniqueMatch(Last(made, MAX_HISTORY), armed, k);
  }

  lemma UniqueMatch(entries: seq<Entry>, armed: Armed, k: nat)
    requires AtMostOneMatch(entries, armed) && k < |entries| && Matches(entries[k], armed)
    ensures forall j :: 0 <= j < |entries| && Matches(entries[j], armed) ==> j == k
  {
  }

  lemma NoneSuppressed(s: Loop, s1: Loop, t: Loop, ids: seq<nat>, fresh': seq<Entry>, armed: Armed)
    requires s1 == s.(app := s1.app) && AllAnnounced(s1, t, ids) && t.echo == Some(armed)
    requires FindAll(s1.app.history.entries, ids) == fresh' && forall e :: e in fresh' ==> !Matches(e, armed)
    ensures OthersShown(s, s1, t, fresh', armed)
  {
    assert forall k :: 0 <= k < |fresh'| ==> fresh'[k] in fresh';
    OthersAll(fresh', armed);
  }

  lemma ArmedTurnExamined(env: Env, s: Loop, i: Input, armed: Armed)
    requires ValidInput(i) && HistoryOk(s.app.history) && ArmedTurn(env, s, i, armed)
    requires AtMostOneMatch(Fresh(env, s, i), armed)
    ensures OthersShown(s, Collect(env, s, i).0, Examined(env, s, i), Fresh(env, s, i), armed)
  {
    var made := Created(s.app.history, TurnOps(env, s, i));
    var (s1, outcomes) := Collect(env, s, i);
    var ids, t := StoredIds(outcomes), Examined(env, s, i);
    TurnSetup(env, s, i);
    ArmedExamined(env, s1, ids, armed);
    if x: nat :| AllButOne(s1, t, ids, x) && Find(s1.app.history.entries, x).Some? &&
                 Matches(Find(s1.app.history.entries, x).value, armed) {
      MatchSuppressed(s, s1, t, made, x, armed);
    } else {
      NoneSuppressed(s, s1, t, ids, Fresh(env, s, i), armed);
    }
  }

  // ---- Quiet turns ----

  /** No restore succeeds, nothing stored matches, and the window does not end. */
  ghost predicate QuietTurn(env: Env, s: Loop, i: Input, armed: Armed)
    requires ValidInput(i)
  {
    && TurnInWindow(env, s, i, armed)
    && (forall k :: 0 <= k < |Fresh(env, s, i)| ==> !Matches(Fresh(env, s, i)[k], armed))
    && Iterate(env, s, i).restored == s.restored
  }

  lemma {:induction false} NothingRestored(env: Env, s: Loop, requests: seq<Request>)
    requires forall r :: r in requests ==> ValidOracle(r.oracle)
    ensures var t := ServeAll(env, s, requests);
            && s.restored <= t.restored
            && t.app.pending == s.app.pending
            && (t.restored == s.restored ==> t.echo == s.echo)
  {
    if requests != [] {
      NothingRestored(env, s, requests[..|requests| - 1]);
    }
  }

  lemma ExaminedPending(env: Env, s: Loop, i: Input)
    requires ValidInput(i)
    ensures Examined(env, s, i).app.pending == [] && Examined(env, s, i).restored == s.restored
  {
    var (s1, outcomes) := Collect(env, s, i);
    ExamineAllPending(env, s1, StoredIds(outcomes));
  }

  lemma {:induction false} ExamineAllPending(env: Env, s: Loop, ids: seq<nat>)
    ensures ExamineAll(env, s, ids).app.pending == s.app.pending
    ensures ExamineAll(env, s, ids).restored == s.restored
  {
    if ids != [] {
      ExamineAllPending(env, s, ids[..|ids| - 1]);
      ExamineCases(env, ExamineAll(env, s, ids[..|ids| - 1]), ids[|ids| - 1]);
    }
  }

  lemma QuietKeepsArmed(env: Env, s: Loop, i: Input, armed: Armed)
    requires ValidInput(i) && Mirrored(s) && s.echo == Some(armed) && QuietTurn(env, s, i, armed)
    ensures var t := Iterate(env, s, i); t.echo == Some(armed) && Mirrored(t) && t.app.pending == []
  {
    TurnMirrors(env, s, i);
    OthersAll(Fresh(env, s, i), armed);
    ArmedTurnExamined(env, s, i, armed);
    ExaminedPending(env, s, i);
    NothingRestored(env, Examined(env, s, i), i.requests);
  }

  ghost predicate QuietRun(env: Env, s: Loop, inputs: seq<Input>, armed: Armed)
    requires forall i :: i in inputs ==> ValidInput(i)
  {
    inputs == [] ||
    (QuietRun(env, s, inputs[..|inputs| - 1], armed) &&
     QuietTurn(env, RunLoop(env, s, inputs[..|inputs| - 1]), inputs[|inputs| - 1], armed))
  }

  lemma {:induction false} QuietRunKeepsArmed(env: Env, s: Loop, inputs: seq<Input>, armed: Armed)
    requires forall i :: i in inputs ==> ValidInput(i)
    requires Mirrored(s) && s.echo == Some(armed) && s.app.pending == [] && QuietRun(env, s, inputs, armed)
    ensures var t := RunLoop(env, s, inputs); t.echo == Some(armed) && Mirrored(t) && t.app.pending == []
  {
    if inputs != [] {
      var front := inputs[..|inputs| - 1];
      QuietRunKeepsArmed(env, s, front, armed);
      assert ValidInput(inputs[|inputs| - 1]);
      QuietKeepsArmed(env, RunLoop(env, s, front), inputs[|inputs| - 1], armed);
    }
  }

  // ---- The echo among the entries of its turn ----

  /** The entry that the `k`-th store of a turn creates; none if it repeats the newest one. */
  function CreatedAt(env: Env, s: Loop, i: Input, k: nat): Option<Entry>
    requires ValidInput(i) && k < |TurnOps(env, s, i)|
  {
    var ops := TurnOps(env, s, i);
    var before := Run(s.app.history, ops[..k]);
    if Repeats(before.entries, ops[k].content) then None else Some(Entry(before.nextId, ops[k].now, ops[k].content))
  }

  lemma {:induction false} CreatedPrefix(h: History, ops: seq<Op>, k: nat)
    requires k <= |ops|
    ensures Created(h, ops[..k]) <= Created(h, ops)
  {
    if k == |ops| {
      assert ops[..k] == ops;
    } else {
      CreatedPrefix(h, ops[..|ops| - 1], k);
      assert ops[..|ops| - 1][..k] == ops[..k];
    }
  }

  lemma LastOfPrefix<T>(front: seq<T>, all: seq<T>)
    requires front <= all && front != []
    ensures front[|front| - 1] in all
  {
    assert all[|front| - 1] == front[|front| - 1];
  }

  lemma StoredIsCreated(h: History, ops: seq<Op>, k: nat)
    requires k < |ops| && ops[k].Store? && !Repeats(Run(h, ops[..k]).entries, ops[k].content)
    ensures Entry(Run(h, ops[..k]).nextId, ops[k].now, ops[k].content) in Created(h, ops)
  {
    assert ops[..k + 1] == ops[..k] + [ops[k]];
    CreatedSnoc(h, ops[..k], ops[k]);
    CreatedPrefix(h, ops, k + 1);
    LastOfPrefix(Created(h, ops[..k + 1]), Created(h, ops));
  }

  lemma CreatedAtIn(env: Env, s: Loop, i: Input, k: nat)
    requires ValidInput(i) && k < |TurnOps(env, s, i)| && CreatedAt(env, s, i, k).Some?
    ensures CreatedAt(env, s, i, k).value in Created(s.app.history, TurnOps(env, s, i))
  {
    StoredIsCreated(s.app.history, TurnOps(env, s, i), k);
  }

  /** The id tells the entry apart from all others of its turn. */
  lemma CreatedAtUnique(env: Env, s: Loop, i: Input, k: nat, f: Entry)
    requires ValidInput(i) && HistoryOk(s.app.history) && k < |TurnOps(env, s, i)| && CreatedAt(env, s, i, k).Some?
    requires f in Fresh(env, s, i) && f.id == CreatedAt(env, s, i, k).value.id
    ensures f == CreatedAt(env, s, i, k).value
  {
    var made, e := Created(s.app.history, TurnOps(env, s, i)), CreatedAt(env, s, i, k).value;
    CreatedAtIn(env, s, i, k);
    TurnSetup(env, s, i);
    assert f in made;
    SameId(s.app.history.entries, made, e, f);
  }

  lemma SameId(before: seq<Entry>, made: seq<Entry>, e: Entry, f: Entry)
    requires Increasing(before + made) && e in made && f in made && e.id == f.id
    ensures e == f
  {
    var a :| 0 <= a < |made| && made[a] == e;
    var b :| 0 <= b < |made| && made[b] == f;
    var all := before + made;
    assert all[|before| + a] == e && all[|before| + b] == f;
  }

  /** All entries but the given one. */
  function Besides(entries: seq<Entry>, e: Option<Entry>): seq<Entry> {
    if e == None then entries else Without(entries, e.value.id)
  }

  lemma OthersAreBesides(fresh': seq<Entry>, e: Option<Entry>, armed: Armed)
    requires Increasing(fresh') && (e.Some? ==> Matches(e.value, armed))
    requires e.Some? ==> forall f :: f in fresh' && f.id == e.value.id ==> f == e.value
    requires forall f :: f in Besides(fresh', e) ==> !Matches(f, armed)
    ensures AtMostOneMatch(fresh', armed) && Others(fresh', armed) == Besides(fresh', e)
    ensures e.Some? && e.value in fresh' ==> Others(fresh', armed) != fresh'
    ensures e.Some? && e.value !in fresh' ==> Others(fresh', armed) == fresh'
  {
    if e.Some? && e.value in fresh' {
      var p :| 0 <= p < |fresh'| && fresh'[p] == e.value;
      WithoutAt(fresh', p);
      OnlyMatch(fresh', p, armed);
      OthersWithout(fresh', armed, p);
    } else {
      if e.Some? {
        WithoutLength(fresh', e.value.id);
      }
      assert Besides(fresh', e) == fresh';
      assert forall j :: 0 <= j < |fresh'| ==> fresh'[j] in fresh';
      OthersAll(fresh', armed);
    }
  }

  lemma OnlyMatch(fresh': seq<Entry>, p: nat, armed: Armed)
    requires p < |fresh'| && forall f :: f in fresh'[..p] + fresh'[p + 1..] ==> !Matches(f, armed)
    ensures AtMostOneMatch(fresh', armed)
  {
    var rest := fresh'[..p] + fresh'[p + 1..];
    forall j | 0 <= j < |fresh'| && j != p ensures !Matches(fresh'[j], armed) {
      assert fresh'[j] == rest[if j < p then j else j - 1];
    }
  }

  lemma ShownBesides(t: Loop, s1: Loop, x: Loop, fresh': seq<Entry>, e: Option<Entry>, armed: Armed)
    requires OthersShown(t, s1, x, fresh', armed) && (e.Some? ==> Matches(e.value, armed))
    requires Others(fresh', armed) == Besides(fresh', e)
    requires if e.Some? && e.value in fresh' then Others(fresh', armed) != fresh' else Others(fresh', armed) == fresh'
    requires e.Some? && e.value !in fresh' ==>
               Without(s1.app.history.entries, e.value.id) == s1.app.history.entries
    ensures x.events == t.events + Rows(Besides(fresh', e))
    ensures x.app.history.entries == Besides(s1.app.history.entries, e)
  {
    if e.Some? && e.value in fresh' {
      var p :| 0 <= p < |fresh'| && fresh'[p] == e.value;
      assert x.app.history == RemoveEntry(s1.app.history, e.value.id);
    }
  }

  lemma FreshAreBesides(env: Env, t: Loop, i: Input, armed: Armed, k: nat)
    requires ValidInput(i) && HistoryOk(t.app.history) && k < |TurnOps(env, t, i)|
    requires Preview(TurnOps(env, t, i)[k].content) == armed.preview
    requires forall f :: f in Besides(Fresh(env, t, i), CreatedAt(env, t, i, k)) ==> !Matches(f, armed)
    ensures var fresh', echo := Fresh(env, t, i), CreatedAt(env, t, i, k);
            && AtMostOneMatch(fresh', armed) && Others(fresh', armed) == Besides(fresh', echo)
            && (if echo.Some? && echo.value in fresh' then Others(fresh', armed) != fresh'
                else Others(fresh', armed) == fresh')
  {
    var echo, fresh' := CreatedAt(env, t, i, k), Fresh(env, t, i);
    TurnSetup(env, t, i);
    if echo.Some? {
      forall f | f in fresh' && f.id == echo.value.id ensures f == echo.value {
        CreatedAtUnique(env, t, i, k, f);
      }
    }
    OthersAreBesides(fresh', echo, armed);
  }

  /** In an armed turn, among whatever else it stores, let the `k`-th store have the expected preview and
      no other entry it creates have it. Then the turn announces exactly the other entries, in order, and
      the one entry it takes out of the history is that of the `k`-th store; if that store repeated the
      newest entry, it takes out none. */
  lemma ArmedTurnShowsOthers(env: Env, t: Loop, i: Input, armed: Armed, k: nat)
    requires ValidInput(i) && Mirrored(t) && ArmedTurn(env, t, i, armed) && k < |TurnOps(env, t, i)|
    requires Preview(TurnOps(env, t, i)[k].content) == armed.preview
    requires forall f :: f in Besides(Fresh(env, t, i), CreatedAt(env, t, i, k)) ==> !Matches(f, armed)
    ensures var u, echo := Iterate(env, t, i), CreatedAt(env, t, i, k);
            && u.events == t.events + Rows(Besides(Fresh(env, t, i), echo))
            && u.app.history.entries == Besides(Collect(env, t, i).0.app.history.entries, echo)
            && Mirrored(u)
  {
    FreshAreBesides(env, t, i, armed, k);
    ArmedTurnExamined(env, t, i, armed);
    HeldOrGone(env, t, i, k);
    ShownBesides(t, Collect(env, t, i).0, Examined(env, t, i), Fresh(env, t, i), CreatedAt(env, t, i, k), armed);
    TurnMirrors(env, t, i);
    ServeAllKeeps(env, Examined(env, t, i), i.requests);
  }

  /** A created entry that is not among the fresh ones is not held any more. */
  lemma HeldOrGone(env: Env, t: Loop, i: Input, k: nat)
    requires ValidInput(i) && HistoryOk(t.app.history) && k < |TurnOps(env, t, i)|
    ensures var echo, entries := CreatedAt(env, t, i, k), Collect(env, t, i).0.app.history.entries;
            echo.Some? && echo.value !in Fresh(env, t, i) ==> Without(entries, echo.value.id) == entries
  {
    var echo := CreatedAt(env, t, i, k);
    if echo.Some? && echo.value !in Fresh(env, t, i) {
      var made, h := Created(t.app.history, TurnOps(env, t, i)), Collect(env, t, i).0.app.history;
      CreatedAtIn(env, t, i, k);
      TurnSetup(env, t, i);
      var p :| 0 <= p < |made| && made[p] == echo.value;
      CreatedHeldIff(h, t.app.history.entries, made, p);
      WithoutLength(h.entries, echo.value.id);
    }
  }

  /** The row of the entry is among those the turn announced. */
  ghost predicate RowAdded(s: Loop, t: Loop, e: Entry) {
    s.events <= t.events && SummaryOf(e) in t.events[|s.events|..]
  }

  lemma RowsAdded(s: Loop, t: Loop, entries: seq<Entry>, e: Entry)
    requires t.events == s.events + Rows(entries) && e in entries
    ensures RowAdded(s, t, e)
  {
    RowShown(entries, e);
  }

  lemma UnexpectedSurvives(env: Env, s1: Loop, u: Loop, ids: seq<nat>, e: Entry)
    requires Effect(env, s1, u, ids) && e in FindAll(s1.app.history.entries, ids)
    requires s1.echo.Some? ==> !Matches(e, s1.echo.value)
    ensures RowAdded(s1, u, e)
  {
    var found := FindAll(s1.app.history.entries, ids);
    if Suppresses(env, s1, ids) {
      var n: nat :| SuppressedAt(env, s1, u, ids, n);
      var m := FoundUnder(s1.app.history.entries, ids, e);
      WithoutMembers(found, ids[n]);
      RowsAdded(s1, u, Without(found, ids[n]), e);
    } else {
      RowsAdded(s1, u, found, e);
    }
  }

  /** A held entry that the flag does not expect is announced, whatever else the turn stores. */
  lemma UnexpectedIsShown(env: Env, t: Loop, i: Input, e: Entry)
    requires ValidInput(i) && HistoryOk(t.app.history) && e in Fresh(env, t, i)
    requires t.echo.Some? ==> !Matches(e, t.echo.value)
    ensures RowAdded(t, Iterate(env, t, i), e)
  {
    var (s1, outcomes) := Collect(env, t, i);
    TurnSetup(env, t, i);
    ExamineAllEffect(env, s1, StoredIds(outcomes));
    UnexpectedSurvives(env, s1, Examined(env, t, i), StoredIds(outcomes), e);
    ServeAllKeeps(env, Examined(env, t, i), i.requests);
  }

  lemma RowShown(entries: seq<Entry>, e: Entry)
    requires e in entries
    ensures SummaryOf(e) in Rows(entries)
  {
    var k :| 0 <= k < |entries| && entries[k] == e;
    assert Rows(entries)[k] == SummaryOf(e);
  }

  // ---- The echo ----

  /** The turn selects the echo's offer once, among any other events; the offer lists exactly what was
      published, in any order, and every read of it gets the published bytes. */
  ghost predicate EchoInput(a: App, i: Input, published: Blobs, c: Copy) {
    && SelectedOnce(a, i.events, c)
    && IsIteration(c.offered, published)
    && AnsweredWith(published, c)
  }

  /** Every read of a picked type gets the published bytes. */
  ghost predicate AnsweredWith(published: Blobs, c: Copy) {
    forall m :: m in Pick(c.offered) && m in published ==> AttemptFor(c.answers, m) == Opened(Sent(published[m]))
  }

  lemma EchoDelivered(published: Blobs, c: Copy)
    requires Grouped(published) && IsIteration(c.offered, published)
    requires AnsweredWith(published, c)
    ensures Delivered(c.offered, c.answers) == EchoBlobs(published, c.offered)
  {
    IterationKeys(c.offered, published);
    PickIsSelection(c.offered);
    assert forall m :: m in Pick(c.offered) ==> m in Candidates(c.offered);
  }

  lemma PublishedGrouped(utf8: Decoder, c: Content, blobs: Blobs, r: seq<Mime>, offered: seq<Mime>)
    requires StoredAs(utf8, c, blobs) && forall m :: m in blobs ==> Eligible(m)
    requires IsIteration(r, Representations(c)) && IsIteration(offered, Published(c, r))
    ensures Grouped(Published(c, r)) && Grouped(EchoBlobs(Published(c, r), offered))
  {
    ClassifiedShape(utf8, blobs, c);
    if HasText(c) {
      PublishedShape(c, blobs, r);
      EchoBlobsShape(Published(c, r), offered);
    } else {
      NoTextTypes(utf8, c, blobs);
      IterationKeys(offered, blobs);
      ImagesAreAllPicked(offered);
      AllEchoed(blobs, offered);
    }
  }

  lemma StoreIsClassified(env: Env, s: Loop, i: Input, k: nat, e: Blobs)
    requires ValidInput(i) && Grouped(e) && k < |TurnOrder(s, i)|
    requires GroupOf(Gather(HandleAll(s.app, i.events).pending), TurnOrder(s, i)[k]) == e
    ensures k < |TurnOps(env, s, i)| && Classified(env.utf8, e, TurnOps(env, s, i)[k].content)
    ensures Representations(TurnOps(env, s, i)[k].content) == e
  {
    TurnStores(env, s, i, k);
    EchoClassified(env.utf8, i.oracle, e, k);
  }

  lemma EchoClassified(utf8: Decoder, o: Oracle, e: Blobs, k: nat)
    requires ValidOracle(o) && Grouped(e)
    ensures ContentAt(utf8, o, e, k).Some? && Classified(utf8, e, ContentAt(utf8, o, e, k).value)
    ensures Representations(ContentAt(utf8, o, e, k).value) == e
  {
    assert NonEmpty(e) == e;
    ContentAtSome(utf8, o, e, k);
    var order, textOrder := o.hash(2 * k, e.Keys), o.hash(2 * k + 1, TextBlobs(e).Keys);
    assert FromBlobs(utf8, e, order, textOrder) == ContentAt(utf8, o, e, k);
  }

  /** The turn that drains the echo stores an echo of the restored content for its offer. */
  lemma EchoStores(env: Env, s: Loop, i: Input, c: Content, blobs: Blobs, r: seq<Mime>, copy: Copy) returns (k: nat)
    requires ValidInput(i) && StoredAs(env.utf8, c, blobs) && forall m :: m in blobs ==> Eligible(m)
    requires IsIteration(r, Representations(c)) && EchoInput(s.app, i, Published(c, r), copy)
    ensures k < |TurnOrder(s, i)| && TurnOrder(s, i)[k] == copy.offer.pid && k < |TurnOps(env, s, i)|
    ensures IsEchoOf(env.utf8, c, r, copy.offered, TurnOps(env, s, i)[k].content)
    ensures Representations(TurnOps(env, s, i)[k].content) == EchoBlobs(Published(c, r), copy.offered)
  {
    PublishedGrouped(env.utf8, c, blobs, r, copy.offered);
    EchoDelivered(Published(c, r), copy);
    GroupIsDelivered(s.app, i.events, copy);
    k := InOrder(HandleAll(s.app, i.events).pending, copy.offer.pid);
    StoreIsClassified(env, s, i, k, EchoBlobs(Published(c, r), copy.offered));
  }

  /** A restore arms the flag with the preview of the entry it restored. */
  lemma ServeArms(env: Env, s: Loop, q: Request)
    requires ValidOracle(q.oracle) && Serve(env, s, q).1 == Restored
    ensures Find(s.app.history.entries, q.entryId).Some?
    ensures Serve(env, s, q).0.echo ==
            Some(Armed(env.clock(s.tick), Preview(Find(s.app.history.entries, q.entryId).value.content)))
  {
  }
}
