/** Echo suppression over whole runs: which restore pays for which suppressed entry. */
module Accounting {
  import opened Config
  import opened Seqs
  import opened Contents
  import opened Histories
  import opened Snapshots
  import opened Drains
  import opened AppStates
  import opened EventLoops
  import opened Mirrors

  /** A suppression is paid by the latest restore at the time: same preview, less than the window
      ago, in an earlier turn. */
  ghost predicate PaidBy(u: Suppression, r: Restoration) {
    && u.preview == r.armed.preview
    && u.at < r.armed.at + ECHO_SUPPRESS_SECS as real
    && r.iteration < u.iteration
  }

  ghost predicate BooksOk(echo: Option<Armed>, restored: seq<Restoration>, suppressed: seq<Suppression>) {
    && (echo.Some? ==>
          && restored != [] && echo.value == restored[|restored| - 1].armed
          && forall i :: 0 <= i < |suppressed| ==> suppressed[i].restore < |restored|)
    && (forall i :: 0 <= i < |suppressed| ==>
          1 <= suppressed[i].restore <= |restored| && PaidBy(suppressed[i], restored[suppressed[i].restore - 1]))
    && (forall i, j :: 0 <= i < j < |suppressed| ==> suppressed[i].restore < suppressed[j].restore)
  }

  ghost predicate Booked(s: Loop) {
    BooksOk(s.echo, s.restored, s.suppressed)
  }

  ghost predicate Before(restored: seq<Restoration>, n: nat) {
    forall r :: r in restored ==> r.iteration < n
  }

  ghost predicate RestoredBefore(s: Loop, n: nat) {
    Before(s.restored, n)
  }

  lemma PayBooks(echo: Option<Armed>, restored: seq<Restoration>, suppressed: seq<Suppression>, u: Suppression)
    requires BooksOk(echo, restored, suppressed) && Before(restored, u.iteration)
    requires IsEcho(echo, u.at, u.preview) && u.restore == |restored|
    ensures BooksOk(None, restored, suppressed + [u])
  {
    assert restored[|restored| - 1] in restored;
  }

  lemma ExamineBooks(env: Env, s: Loop, id: nat)
    requires Booked(s) && RestoredBefore(s, s.iteration)
    ensures var t := Examine(env, s, id);
            Booked(t) && t.restored == s.restored && t.iteration == s.iteration
  {
    var echo, now := Prune(s.echo, env.clock(s.tick)), env.clock(s.tick + 1);
    assert BooksOk(echo, s.restored, s.suppressed);
    var found := Find(s.app.history.entries, id);
    if found.Some? {
      var preview := Preview(found.value.content);
      if IsEcho(echo, now, preview) {
        PayBooks(echo, s.restored, s.suppressed, Suppression(id, preview, now, |s.restored|, s.iteration));
      }
    }
  }

  lemma {:induction false} ExamineAllBooks(env: Env, s: Loop, ids: seq<nat>)
    requires Booked(s) && RestoredBefore(s, s.iteration)
    ensures var t := ExamineAll(env, s, ids);
            Booked(t) && t.restored == s.restored && t.iteration == s.iteration
  {
    if ids != [] {
      ExamineAllBooks(env, s, ids[..|ids| - 1]);
      ExamineBooks(env, ExamineAll(env, s, ids[..|ids| - 1]), ids[|ids| - 1]);
    }
  }

  lemma {:induction false} ServeAllBooks(env: Env, s: Loop, requests: seq<Request>)
    requires Booked(s) && RestoredBefore(s, s.iteration + 1)
    requires forall r :: r in requests ==> ValidOracle(r.oracle)
    ensures var t := ServeAll(env, s, requests);
            && Booked(t) && RestoredBefore(t, s.iteration + 1) && t.iteration == s.iteration
  {
    if requests != [] {
      ServeAllBooks(env, s, requests[..|requests| - 1]);
      ServeBooks(env, ServeAll(env, s, requests[..|requests| - 1]), requests[|requests| - 1]);
    }
  }

  lemma ServeBooks(env: Env, s: Loop, r: Request)
    requires Booked(s) && RestoredBefore(s, s.iteration + 1) && ValidOracle(r.oracle)
    ensures var t := Serve(env, s, r).0;
            && Booked(t) && RestoredBefore(t, s.iteration + 1) && t.iteration == s.iteration
  {
    var after := Restore(r.oracle, s.app, r.entryId);
    ArmBooks(env, s.(app := after.0), Find(s.app.history.entries, r.entryId), after.1);
  }

  lemma ArmBooks(env: Env, s: Loop, entry: Option<Entry>, result: RestoreResult)
    requires Booked(s) && RestoredBefore(s, s.iteration + 1)
    ensures var t := Armable(env, s, entry, result);
            && Booked(t) && RestoredBefore(t, s.iteration + 1) && t.iteration == s.iteration
  {
  }

  lemma TurnBooks(env: Env, s: Loop, i: Input)
    requires ValidInput(i) && Booked(s) && RestoredBefore(s, s.iteration)
    ensures var t := Iterate(env, s, i); Booked(t) && RestoredBefore(t, t.iteration)
  {
    CollectRuns(env, s, i);
    var (s1, outcomes) := Collect(env, s, i);
    ExamineAllBooks(env, s1, StoredIds(outcomes));
    ServeAllBooks(env, ExamineAll(env, s1, StoredIds(outcomes)), i.requests);
  }

  // ---- Ids ----

  /** Rows are announced once each, in id order, and no suppressed entry is announced. */
  ghost predicate RowsBooked(events: seq<Summary>, suppressed: seq<Suppression>, bound: nat) {
    && (forall i, j :: 0 <= i < j < |events| ==> events[i].id < events[j].id)
    && (forall r :: r in events ==> r.id < bound)
    && (forall u :: u in suppressed ==> u.id < bound)
    && (forall u, r :: u in suppressed && r in events ==> u.id != r.id)
  }

  ghost predicate IdsBooked(s: Loop) {
    RowsBooked(s.events, s.suppressed, s.app.history.nextId)
  }

  /** Stores hand out new ids. */
  lemma CreatedAreNew(h: History, ops: seq<Op>)
    requires HistoryOk(h) && forall k :: 0 <= k < |ops| ==> ops[k].Store?
    ensures forall e :: e in Created(h, ops) ==> h.nextId <= e.id < Run(h, ops).nextId
  {
    var made := Created(h, ops);
    CreatedIds(h, ops);
    RunKeepsIds(h, ops);
    forall e | e in made ensures h.nextId <= e.id < Run(h, ops).nextId {
      var k :| 0 <= k < |made| && made[k] == e;
      assert IdsOf(made)[k] == e.id && IdsOf(made)[k] in Issued(h, ops);
    }
  }

  lemma FreshIds(env: Env, s: Loop, i: Input)
    requires ValidInput(i) && HistoryOk(s.app.history)
    ensures Increasing(Fresh(env, s, i))
    ensures forall e :: e in Fresh(env, s, i) ==>
              s.app.history.nextId <= e.id < Run(s.app.history, TurnOps(env, s, i)).nextId
  {
    CreatedAreNew(s.app.history, TurnOps(env, s, i));
    TurnSetup(env, s, i);
  }

  ghost predicate NewEntries(entries: seq<Entry>, bound: nat, bound': nat) {
    Increasing(entries) && bound <= bound' && forall e :: e in entries ==> bound <= e.id < bound'
  }

  lemma RowOrigin(announced: seq<Entry>, r: Summary) returns (e: Entry)
    requires r in Rows(announced)
    ensures e in announced && e.id == r.id
  {
    var k :| 0 <= k < |Rows(announced)| && Rows(announced)[k] == r;
    e := announced[k];
  }

  lemma RowsIncrease(events: seq<Summary>, announced: seq<Entry>, bound: nat, i: nat, j: nat)
    requires forall i, j :: 0 <= i < j < |events| ==> events[i].id < events[j].id
    requires forall r :: r in events ==> r.id < bound
    requires Increasing(announced) && forall e :: e in announced ==> bound <= e.id
    requires i < j < |events| + |announced|
    ensures (events + Rows(announced))[i].id < (events + Rows(announced))[j].id
  {
    var n := |events|;
    if j >= n {
      assert announced[j - n] in announced;
      if i < n {
        assert events[i] in events;
      }
    }
  }

  /** Announcing entries with new ids keeps the books. */
  lemma AnnounceRows(events: seq<Summary>, suppressed: seq<Suppression>, announced: seq<Entry>, bound: nat, bound': nat)
    requires RowsBooked(events, suppressed, bound) && NewEntries(announced, bound, bound')
    ensures RowsBooked(events + Rows(announced), suppressed, bound')
    ensures forall r :: r in Rows(announced) ==> exists e :: e in announced && e.id == r.id
  {
    var after := events + Rows(announced);
    forall i, j | 0 <= i < j < |after| ensures after[i].id < after[j].id {
      RowsIncrease(events, announced, bound, i, j);
    }
    forall r | r in Rows(announced) ensures exists e :: e in announced && e.id == r.id {
      var e := RowOrigin(announced, r);
    }
  }

  lemma DropRows(
    events: seq<Summary>, suppressed: seq<Suppression>, made: seq<Entry>, k: nat, u: Suppression,
    bound: nat, bound': nat)
    requires RowsBooked(events, suppressed, bound) && NewEntries(made, bound, bound')
    requires k < |made| && u.id == made[k].id
    ensures RowsBooked(events + Rows(made[..k] + made[k + 1..]), suppressed + [u], bound')
  {
    var announced := made[..k] + made[k + 1..];
    DropIncreasing(made, k);
    AnnounceRows(events, suppressed, announced, bound, bound');
    assert made[k] in made;
  }

  lemma DropIncreasing(made: seq<Entry>, k: nat)
    requires Increasing(made) && k < |made|
    ensures var announced := made[..k] + made[k + 1..];
            && Increasing(announced)
            && (forall e :: e in announced ==> e in made && e.id != made[k].id)
  {
  }

  lemma TurnBooksIds(env: Env, s: Loop, i: Input)
    requires ValidInput(i) && HistoryOk(s.app.history) && IdsBooked(s)
    ensures IdsBooked(Iterate(env, s, i))
  {
    var announced := TurnHasEffect(env, s, i);
    var x, made := Examined(env, s, i), Fresh(env, s, i);
    var bound, bound' := s.app.history.nextId, x.app.history.nextId;
    FreshIds(env, s, i);
    ExaminedNextId(env, s, i);
    ServeAllKeeps(env, x, i.requests);
    assert NewEntries(made, bound, bound');
    if x.suppressed == s.suppressed {
      AnnounceRows(s.events, s.suppressed, announced, bound, bound');
    } else {
      var k :| 0 <= k < |made| && announced == made[..k] + made[k + 1..] &&
               x.suppressed == s.suppressed + [x.suppressed[|s.suppressed|]] &&
               x.suppressed[|s.suppressed|].id == made[k].id;
      DropRows(s.events, s.suppressed, made, k, x.suppressed[|s.suppressed|], bound, bound');
    }
  }

  lemma {:induction false} ExamineAllNextId(env: Env, s: Loop, ids: seq<nat>)
    ensures ExamineAll(env, s, ids).app.history.nextId == s.app.history.nextId
  {
    if ids != [] {
      ExamineAllNextId(env, s, ids[..|ids| - 1]);
      ExamineCases(env, ExamineAll(env, s, ids[..|ids| - 1]), ids[|ids| - 1]);
    }
  }

  lemma ExaminedNextId(env: Env, s: Loop, i: Input)
    requires ValidInput(i) && IdsOk(s.app.history)
    ensures var next := Run(s.app.history, TurnOps(env, s, i)).nextId;
            Examined(env, s, i).app.history.nextId == next >= s.app.history.nextId
  {
    CollectRuns(env, s, i);
    var (s1, outcomes) := Collect(env, s, i);
    ExamineAllNextId(env, s1, StoredIds(outcomes));
    RunKeepsIds(s.app.history, TurnOps(env, s, i));
  }

  // ---- Whole runs ----

  /** Over every run: every suppressed entry is paid for by a restore of its own, made in an earlier
      turn, less than the window before, with the same preview; and it is never announced. */
  lemma {:induction false} RunIsBooked(env: Env, inputs: seq<Input>)
    requires forall i :: i in inputs ==> ValidInput(i)
    ensures var s := RunLoop(env, BOOT, inputs);
            Booked(s) && RestoredBefore(s, s.iteration) && IdsBooked(s)
  {
    if inputs != [] {
      var front, i := inputs[..|inputs| - 1], inputs[|inputs| - 1];
      RunIsBooked(env, front);
      RunMirrors(env, front);
      TurnBooks(env, RunLoop(env, BOOT, front), i);
      TurnBooksIds(env, RunLoop(env, BOOT, front), i);
    }
  }

  lemma {:induction false} IncreasingBound(suppressed: seq<Suppression>, n: nat)
    requires forall i, j :: 0 <= i < j < |suppressed| ==> suppressed[i].restore < suppressed[j].restore
    requires forall i :: 0 <= i < |suppressed| ==> 1 <= suppressed[i].restore <= n
    ensures |suppressed| <= n
  {
    if suppressed != [] {
      IncreasingBound(suppressed[..|suppressed| - 1], suppressed[|suppressed| - 1].restore - 1);
    }
  }

  /** Suppressed entries never outnumber the successful restores. */
  lemma SuppressedAtMostRestored(env: Env, inputs: seq<Input>)
    requires forall i :: i in inputs ==> ValidInput(i)
    ensures var s := RunLoop(env, BOOT, inputs); |s.suppressed| <= |s.restored|
  {
    RunIsBooked(env, inputs);
    var s := RunLoop(env, BOOT, inputs);
    IncreasingBound(s.suppressed, |s.restored|);
  }

  // ---- Neighbours ----

  lemma {:induction false} StoresKeepNeighbours(h: History, ops: seq<Op>)
    requires forall k :: 0 <= k < |ops| ==> ops[k].Store?
    ensures EqualPairs(Run(h, ops).entries) <= EqualPairs(h.entries)
  {
    if ops != [] {
      var front, op := ops[..|ops| - 1], ops[|ops| - 1];
      StoresKeepNeighbours(h, front);
      AddKeepsNeighbours(Run(h, front), Some(op.content), op.now);
    }
  }

  lemma TurnNeighbours(env: Env, s: Loop, i: Input)
    requires ValidInput(i) && HistoryOk(s.app.history)
    ensures var t := Iterate(env, s, i);
            EqualPairs(t.app.history.entries) + |s.suppressed| <= EqualPairs(s.app.history.entries) + |t.suppressed|
  {
    var (s1, outcomes) := Collect(env, s, i);
    var ids, x := StoredIds(outcomes), Examined(env, s, i);
    CollectRuns(env, s, i);
    CollectKeepsIds(env, s, i);
    TurnSetup(env, s, i);
    StoresKeepNeighbours(s.app.history, TurnOps(env, s, i));
    ExamineAllEffect(env, s1, ids);
    ServeAllKeeps(env, x, i.requests);
    var id := EffectCases(env, s1, x, ids);
    if Suppresses(env, s1, ids) {
      RemoveNeighbours(s1.app.history, id);
    }
  }

  /** Over every run, neighbouring entries with equal content number at most the suppressed echoes. */
  lemma {:induction false} RunNeighbours(env: Env, inputs: seq<Input>)
    requires forall i :: i in inputs ==> ValidInput(i)
    ensures var s := RunLoop(env, BOOT, inputs); EqualPairs(s.app.history.entries) <= |s.suppressed|
  {
    if inputs != [] {
      var front, i := inputs[..|inputs| - 1], inputs[|inputs| - 1];
      RunNeighbours(env, front);
      RunMirrors(env, front);
      TurnNeighbours(env, RunLoop(env, BOOT, front), i);
    }
  }
}
