/** `run_event_loop` of `src/main.rs`: dispatch, drain, suppress the echo, mirror, broadcast, restore. */
module EventLoops {
  import opened Config
  import opened Seqs
  import opened Contents
  import opened Histories
  import opened Snapshots
  import opened Drains
  import opened AppStates

  /** A restore whose echo is still expected. */
  datatype Armed = Armed(at: real, preview: string)

  /** For the books: a successful restore and the iteration it ran in. */
  datatype Restoration = Restoration(armed: Armed, iteration: nat)

  /** For the books: a suppressed entry, when it was examined, and how many restores there had been. */
  datatype Suppression = Suppression(id: nat, preview: string, at: real, restore: nat, iteration: nat)

  /** `tick` counts the readings of the clock; `restored` and `suppressed` are bookkeeping only. */
  datatype Loop = Loop(
    app: App, mirror: seq<Summary>, events: seq<Summary>, echo: Option<Armed>, tick: nat,
    iteration: nat, restored: seq<Restoration>, suppressed: seq<Suppression>)

  /** `clock(n)` is the n-th `Instant::now()`, in seconds. */
  datatype Env = Env(utf8: Decoder, clock: nat -> real)

  /** A restore request, with the iteration orders of the maps that serving it builds. */
  datatype Request = Request(entryId: nat, oracle: Oracle)

  datatype Input = Input(events: seq<Event>, oracle: Oracle, requests: seq<Request>)

  ghost predicate ValidInput(i: Input) {
    ValidOracle(i.oracle) && forall r :: r in i.requests ==> ValidOracle(r.oracle)
  }

  /** `Instant::elapsed` saturates at zero. */
  function Elapsed(now: real, at: real): real {
    if now < at then 0.0 else now - at
  }

  predicate IsEcho(echo: Option<Armed>, now: real, preview: string) {
    echo.Some? && Elapsed(now, echo.value.at) < ECHO_SUPPRESS_SECS as real && echo.value.preview == preview
  }

  /** The flag after pruning a stale one. */
  function Prune(echo: Option<Armed>, now: real): Option<Armed> {
    if echo.Some? && Elapsed(now, echo.value.at) >= ECHO_SUPPRESS_SECS as real then None else echo
  }

  /** Suppress or announce, once the flag is pruned. */
  function Decide(s: Loop, id: nat, now: real): Loop {
    match Find(s.app.history.entries, id)
    case None => s
    case Some(e) =>
      if IsEcho(s.echo, now, Preview(e.content)) then
        s.(app := s.app.(history := RemoveEntry(s.app.history, id)), echo := None,
           suppressed := s.suppressed + [Suppression(id, Preview(e.content), now, |s.restored|, s.iteration)])
      else
        s.(mirror := Last(s.mirror + [SummaryOf(e)], MAX_HISTORY), events := s.events + [SummaryOf(e)])
  }

  /** One `Stored` outcome. */
  function Examine(env: Env, s: Loop, id: nat): Loop {
    Decide(s.(echo := Prune(s.echo, env.clock(s.tick)), tick := s.tick + 2), id, env.clock(s.tick + 1))
  }

  function ExamineAll(env: Env, s: Loop, ids: seq<nat>): Loop {
    if ids == [] then s else Examine(env, ExamineAll(env, s, ids[..|ids| - 1]), ids[|ids| - 1])
  }

  /** A successful restore arms the flag with the preview taken before it. */
  function Armable(env: Env, s: Loop, entry: Option<Entry>, result: RestoreResult): Loop {
    if result == Restored && entry.Some? then
      var armed := Armed(env.clock(s.tick), Preview(entry.value.content));
      s.(echo := Some(armed), tick := s.tick + 1, restored := s.restored + [Restoration(armed, s.iteration)])
    else s
  }

  /** `handle_restore`. */
  function Serve(env: Env, s: Loop, r: Request): (Loop, RestoreResult)
    requires ValidOracle(r.oracle)
  {
    var after := Restore(r.oracle, s.app, r.entryId);
    (Armable(env, s.(app := after.0), Find(s.app.history.entries, r.entryId), after.1), after.1)
  }

  function ServeAll(env: Env, s: Loop, requests: seq<Request>): Loop
    requires forall r :: r in requests ==> ValidOracle(r.oracle)
  {
    if requests == [] then s
    else Serve(env, ServeAll(env, s, requests[..|requests| - 1]), requests[|requests| - 1]).0
  }

  /** Dispatch and drain: the state the outcomes are examined in, and the stored ids. */
  function Collect(env: Env, s: Loop, i: Input): (Loop, seq<ReadOutcome>)
    requires ValidInput(i)
  {
    var (app, outcomes) := Drain(env.utf8, i.oracle, HandleAll(s.app, i.events));
    (s.(app := app), outcomes)
  }

  function Iterate(env: Env, s: Loop, i: Input): Loop
    requires ValidInput(i)
  {
    var (s1, outcomes) := Collect(env, s, i);
    var s3 := ServeAll(env, ExamineAll(env, s1, StoredIds(outcomes)), i.requests);
    s3.(iteration := s3.iteration + 1)
  }

  function RunLoop(env: Env, s: Loop, inputs: seq<Input>): Loop
    requires forall i :: i in inputs ==> ValidInput(i)
  {
    if inputs == [] then s else Iterate(env, RunLoop(env, s, inputs[..|inputs| - 1]), inputs[|inputs| - 1])
  }

  lemma StoredIdsStep(outcomes: seq<ReadOutcome>, i: nat)
    requires i < |outcomes|
    ensures StoredIds(outcomes[..i + 1]) ==
            StoredIds(outcomes[..i]) + if outcomes[i].Stored? then [outcomes[i].entryId] else []
  {
    assert outcomes[..i + 1][..i] == outcomes[..i];
  }

  lemma ExamineAllStep(env: Env, s: Loop, ids: seq<nat>, outcome: ReadOutcome)
    ensures ExamineAll(env, s, ids + []) == ExamineAll(env, s, ids)
    ensures outcome.Stored? ==>
              ExamineAll(env, s, ids + [outcome.entryId]) == Examine(env, ExamineAll(env, s, ids), outcome.entryId)
  {
    assert ids + [] == ids;
    if outcome.Stored? {
      assert (ids + [outcome.entryId])[..|ids|] == ids;
    }
  }

  /** The state in which the loop is entered. */
  const BOOT := Loop(App(true, true, None, 0, map[], None, [], EMPTY, []), [], [], None, 0, 0, [], [])

  class EventLoop {
    const state: AppState
    const snapshot: Snapshot
    var expectEcho: Option<Armed>
    /** Everything sent on the broadcast channel. */
    var sent: seq<Summary>
    var tick: nat

    ghost var iteration: nat
    ghost var restored: seq<Restoration>
    ghost var suppressed: seq<Suppression>

    ghost predicate Valid()
      reads this, state, state.clipboard
    {
      state.Valid()
    }

    ghost function View(): Loop
      reads this, state, state.clipboard, snapshot
    {
      Loop(state.View(), snapshot.rows, sent, expectEcho, tick, iteration, restored, suppressed)
    }

    constructor ()
      ensures View() == BOOT && Valid()
      ensures fresh(state) && fresh(state.clipboard) && fresh(snapshot)
    {
      state := new AppState();
      snapshot := new Snapshot();
      expectEcho, sent, tick := None, [], 0;
      iteration, restored, suppressed := 0, [], [];
      new;
      state.SetDevice(true);
    }

    method Now(env: Env) returns (t: real)
      modifies this`tick
      ensures t == env.clock(old(tick)) && tick == old(tick) + 1
    {
      t := env.clock(tick);
      tick := tick + 1;
    }

    /** Forgets a stale flag; returns the reading that `is_echo` takes. */
    method PruneStale(env: Env) returns (t: real)
      modifies this`tick, this`expectEcho
      ensures expectEcho == Prune(old(expectEcho), env.clock(old(tick)))
      ensures tick == old(tick) + 2 && t == env.clock(old(tick) + 1)
    {
      t := Now(env);
      if expectEcho.Some? && Elapsed(t, expectEcho.value.at) >= ECHO_SUPPRESS_SECS as real {
        expectEcho := None;
      }
      t := Now(env);
    }

    /** Removes our own echo from the history. */
    method Suppress(entryId: nat, preview: string, now: real)
      requires Valid()
      modifies this, state.clipboard
      ensures Valid()
      ensures View() == old(View()).(
                app := old(state.View()).(history := RemoveEntry(old(state.clipboard.View()), entryId)),
                echo := None,
                suppressed := old(suppressed) + [Suppression(entryId, preview, now, |old(restored)|, old(iteration))])
    {
      RemoveKeepsIds(state.clipboard.View(), entryId);
      var removed := state.clipboard.Remove(entryId);
      expectEcho := None;
      suppressed := suppressed + [Suppression(entryId, preview, now, |restored|, iteration)];
    }

    /** Mirrors a stored entry, then broadcasts it. */
    method Announce(entry: Entry)
      modifies this`sent, snapshot
      ensures View() == old(View()).(
                mirror := Last(old(snapshot.rows) + [SummaryOf(entry)], MAX_HISTORY),
                events := old(sent) + [SummaryOf(entry)])
    {
      var summary := SummaryOf(entry);
      snapshot.PushSummary(summary);
      sent := sent + [summary];
    }

    method ExamineStored(env: Env, entryId: nat)
      requires Valid()
      modifies this, state.clipboard, snapshot
      ensures Valid()
      ensures View() == Examine(env, old(View()), entryId)
    {
      var now := PruneStale(env);
      SuppressOrAnnounce(entryId, now);
    }

    method SuppressOrAnnounce(entryId: nat, now: real)
      requires Valid()
      modifies this, state.clipboard, snapshot
      ensures Valid()
      ensures View() == Decide(old(View()), entryId, now)
    {
      var entry := state.clipboard.Get(entryId);
      if entry.Some? {
        if IsEcho(expectEcho, now, Preview(entry.value.content)) {
          Suppress(entryId, Preview(entry.value.content), now);
        } else {
          Announce(entry.value);
        }
      }
    }

    method HandleRestore(env: Env, r: Request) returns (reply: RestoreResult)
      requires ValidOracle(r.oracle) && Valid()
      modifies this, state
      ensures Valid()
      ensures (View(), reply) == Serve(env, old(View()), r)
    {
      var entry := state.clipboard.Get(r.entryId);
      reply := state.RestoreEntry(r.oracle, r.entryId);
      Arm(env, entry, reply);
    }

    method Arm(env: Env, entry: Option<Entry>, result: RestoreResult)
      modifies this
      ensures View() == Armable(env, old(View()), entry, result)
    {
      if result == Restored && entry.Some? {
        var now := Now(env);
        expectEcho := Some(Armed(now, Preview(entry.value.content)));
        restored := restored + [Restoration(expectEcho.value, iteration)];
      }
    }

    /** One turn of the loop. */
    method RunIteration(env: Env, input: Input)
      requires ValidInput(input) && Valid()
      modifies this, state, state.clipboard, snapshot
      ensures Valid()
      ensures View() == Iterate(env, old(View()), input)
    {
      var outcomes := DispatchAndDrain(env, input);
      ExamineOutcomes(env, outcomes);
      ServeRequests(env, input.requests);
      iteration := iteration + 1;
    }

    method DispatchAndDrain(env: Env, input: Input) returns (outcomes: seq<ReadOutcome>)
      requires ValidInput(input) && Valid()
      modifies state, state.clipboard
      ensures Valid()
      ensures (View(), outcomes) == Collect(env, old(View()), input)
    {
      DispatchPending(input.events);
      outcomes := state.DrainPendingReads(env.utf8, input.oracle);
    }

    method DispatchPending(events: seq<Event>)
      requires Valid()
      modifies state
      ensures Valid()
      ensures View() == old(View()).(app := HandleAll(old(View()).app, events))
    {
      for i := 0 to |events|
        invariant Valid()
        invariant state.View() == HandleAll(old(state.View()), events[..i])
      {
        assert events[..i + 1][..i] == events[..i];
        state.Dispatch(events[i]);
      }
      assert events[..|events|] == events;
    }

    method ExamineOutcomes(env: Env, outcomes: seq<ReadOutcome>)
      requires Valid()
      modifies this, state.clipboard, snapshot
      ensures Valid()
      ensures View() == ExamineAll(env, old(View()), StoredIds(outcomes))
    {
      for i := 0 to |outcomes|
        invariant Valid()
        invariant View() == ExamineAll(env, old(View()), StoredIds(outcomes[..i]))
      {
        StoredIdsStep(outcomes, i);
        ExamineAllStep(env, old(View()), StoredIds(outcomes[..i]), outcomes[i]);
        if outcomes[i].Stored? {
          ExamineStored(env, outcomes[i].entryId);
        }
      }
      assert outcomes[..|outcomes|] == outcomes;
    }

    method ServeRequests(env: Env, requests: seq<Request>)
      requires Valid() && forall r :: r in requests ==> ValidOracle(r.oracle)
      modifies this, state
      ensures Valid()
      ensures View() == ServeAll(env, old(View()), requests)
    {
      for i := 0 to |requests|
        invariant Valid()
        invariant View() == ServeAll(env, old(View()), requests[..i])
      {
        assert requests[..i + 1][..i] == requests[..i];
        var reply := HandleRestore(env, requests[i]);
      }
      assert requests[..|requests|] == requests;
    }
  }
}
