/** What holds of the daemon as a whole, however its Wayland thread and its clients interleave: the
    thread refines the sequential loop, and what the loop guarantees reaches the clients. */
module Composition {
  import opened Config
  import opened Seqs
  import opened Histories
  import opened Snapshots
  import opened Drains
  import opened AppStates
  import opened EventLoops
  import opened Mirrors
  import opened Accounting
  import opened Daemons
  import S = Servers
  import P = Protocol
  import R = Replies

  // ---- The invariant ----

  /** Within a turn that collected `s1` and the stored `ids`, the thread is where examining the ids done
      and serving the requests taken so far leads. */
  ghost predicate InTurn(env: Env, s1: Loop, ids: seq<nat>, d: Daemon) {
    && !d.stage.Polling? && ValidInput(d.current)
    && ids == d.done + d.stage.left
    && d.loop == ServeAll(env, ExamineAll(env, s1, d.done), d.current.requests)
    && (d.current.requests != [] ==> d.stage == Examining([]))
  }

  /** Between turns the thread is where the sequential loop is after the finished turns. */
  ghost predicate Placed(env: Env, d: Daemon) {
    && (forall i :: i in d.inputs ==> ValidInput(i))
    && var s0 := RunLoop(env, BOOT, d.inputs);
       if d.stage.Polling? then d.loop == s0
       else
         && ValidInput(d.current)
         && var (s1, outcomes) := Collect(env, s0, d.current);
            InTurn(env, s1, StoredIds(outcomes), d)
  }

  /** The rows announced are the rows mirrored, and all but the one being announced were broadcast. */
  ghost predicate Shared(d: Daemon) {
    && d.sys.pushed == d.loop.events
    && d.loop.mirror == Last(d.loop.events, MAX_HISTORY)
    && |d.sys.pushed| == |d.sys.sent| + if d.stage.Announcing? then 1 else 0
  }

  function ResultOf(s: Service): RestoreResult
    requires ValidOracle(s.request.oracle)
  {
    Restore(s.request.oracle, s.before, s.request.entryId).1
  }

  function Successes(executed: seq<S.Executed>): nat {
    if executed == [] then 0
    else Successes(executed[..|executed| - 1]) + if executed[|executed| - 1].failure == None then 1 else 0
  }

  /** Every executed request was served, with the result that its client is to be told. */
  ghost predicate ServedOk(executed: seq<S.Executed>, served: seq<Service>) {
    && |executed| == |served|
    && forall t :: 0 <= t < |served| ==>
         && ValidOracle(served[t].request.oracle)
         && executed[t].pending.entryId == served[t].request.entryId
         && executed[t].failure == FailureOf(ResultOf(served[t]))
  }

  function AllRequests(inputs: seq<Input>): seq<Request> {
    if inputs == [] then [] else AllRequests(inputs[..|inputs| - 1]) + inputs[|inputs| - 1].requests
  }

  ghost predicate Listed(taken: seq<Request>, served: seq<Service>) {
    |taken| == |served| && forall t :: 0 <= t < |taken| ==> taken[t] == served[t].request
  }

  /** The requests of the turns are the requests served, in order. */
  ghost predicate Recorded(d: Daemon) {
    Listed(AllRequests(d.inputs) + if d.stage.Polling? then [] else d.current.requests, d.served)
  }

  ghost predicate LogsOk(d: Daemon) {
    Shared(d) && Recorded(d) && ServedOk(d.sys.executed, d.served) && Successes(d.sys.executed) == |d.loop.restored|
  }

  ghost predicate ThreadOk(env: Env, d: Daemon) {
    Placed(env, d) && LogsOk(d)
  }

  // ---- Every move keeps it ----

  lemma ClientKeeps(env: Env, d: Daemon, a: S.Action)
    requires ThreadOk(env, d) && IsClientAction(a)
    ensures ThreadOk(env, Advance(env, d, Client(a)))
  {
  }

  lemma BeginKeeps(env: Env, d: Daemon, events: seq<Event>, oracle: Oracle)
    requires ThreadOk(env, d) && ValidOracle(oracle) && Ready(d, Begin(events, oracle))
    ensures ThreadOk(env, Advance(env, d, Begin(events, oracle)))
  {
    CollectRuns(env, d.loop, Input(events, oracle, []));
  }

  lemma ExamineAllLast(env: Env, s: Loop, ids: seq<nat>, id: nat)
    ensures ExamineAll(env, s, ids + [id]) == Examine(env, ExamineAll(env, s, ids), id)
  {
    assert (ids + [id])[..|ids|] == ids;
  }

  lemma ExamineInTurn(env: Env, s1: Loop, ids: seq<nat>, d: Daemon)
    requires InTurn(env, s1, ids, d) && Ready(d, ExamineNext)
    ensures InTurn(env, s1, ids, AfterExamine(d, ExamineAll(env, s1, d.done + [d.stage.left[0]])))
    ensures d.loop == ExamineAll(env, s1, d.done)
  {
    assert d.done + [d.stage.left[0]] + d.stage.left[1..] == d.done + d.stage.left;
  }

  lemma ExaminePlaced(env: Env, d: Daemon)
    requires Placed(env, d) && Ready(d, ExamineNext)
    ensures Placed(env, AfterExamine(d, Examine(env, d.loop, d.stage.left[0])))
  {
    var (s1, outcomes) := Collect(env, RunLoop(env, BOOT, d.inputs), d.current);
    ExamineInTurn(env, s1, StoredIds(outcomes), d);
    ExamineAllLast(env, s1, d.done, d.stage.left[0]);
  }

  /** What examining may do to the logs. */
  ghost predicate Announces(s: Loop, t: Loop) {
    && (t.events == s.events || (|t.events| == |s.events| + 1 && t.events[..|s.events|] == s.events))
    && t.mirror == Last(t.events, MAX_HISTORY) && t.restored == s.restored
  }

  lemma ExamineAnnounces(env: Env, s: Loop, id: nat)
    requires s.mirror == Last(s.events, MAX_HISTORY)
    ensures Announces(s, Examine(env, s, id))
  {
    ExamineKeepsWindow(env, s, id);
    ExamineCases(env, s, id);
  }

  lemma ExamineShared(d: Daemon, t: Loop)
    requires Shared(d) && Ready(d, ExamineNext) && Announces(d.loop, t)
    ensures var e := AfterExamine(d, t);
            Shared(e) && e.sys.executed == d.sys.executed && e.loop.restored == d.loop.restored
  {
    if t.events != d.loop.events {
      assert t.events == d.loop.events + [LastRow(t.events)];
    }
  }

  lemma ExamineKeeps(env: Env, d: Daemon)
    requires ThreadOk(env, d) && Ready(d, ExamineNext)
    ensures ThreadOk(env, Advance(env, d, ExamineNext))
  {
    ExaminePlaced(env, d);
    ExamineAnnounces(env, d.loop, d.stage.left[0]);
    ExamineShared(d, Examine(env, d.loop, d.stage.left[0]));
  }

  lemma BroadcastShared(env: Env, d: Daemon)
    requires Shared(d) && Ready(d, BroadcastNext)
    ensures var e := Advance(env, d, BroadcastNext);
            && Shared(e) && e.sys.executed == d.sys.executed
            && e == d.(sys := e.sys, stage := Examining(d.stage.left))
  {
  }

  lemma BroadcastPlaced(env: Env, d: Daemon, sys: S.System)
    requires Placed(env, d) && d.stage.Announcing?
    ensures Placed(env, d.(sys := sys, stage := Examining(d.stage.left)))
  {
  }

  lemma BroadcastKeeps(env: Env, d: Daemon)
    requires ThreadOk(env, d) && Ready(d, BroadcastNext)
    ensures ThreadOk(env, Advance(env, d, BroadcastNext))
  {
    BroadcastShared(env, d);
    BroadcastPlaced(env, d, Advance(env, d, BroadcastNext).sys);
  }

  lemma ServeInTurn(env: Env, s1: Loop, ids: seq<nat>, d: Daemon, q: Request, failure: Option<string>)
    requires InTurn(env, s1, ids, d) && d.stage == Examining([]) && ValidOracle(q.oracle)
    ensures InTurn(env, s1, ids, AfterServe(d, q, Serve(env, d.loop, q).0, failure))
  {
    assert (d.current.requests + [q])[..|d.current.requests|] == d.current.requests;
  }

  lemma CollectIgnoresRequests(env: Env, s: Loop, i: Input, requests: seq<Request>)
    requires ValidInput(i) && ValidInput(i.(requests := requests))
    ensures Collect(env, s, i.(requests := requests)) == Collect(env, s, i)
  {
  }

  lemma ServePlaced(env: Env, d: Daemon, q: Request, failure: Option<string>)
    requires Placed(env, d) && d.stage == Examining([]) && ValidOracle(q.oracle)
    ensures Placed(env, AfterServe(d, q, Serve(env, d.loop, q).0, failure))
  {
    var s0 := RunLoop(env, BOOT, d.inputs);
    var (s1, outcomes) := Collect(env, s0, d.current);
    ServeInTurn(env, s1, StoredIds(outcomes), d, q, failure);
    CollectIgnoresRequests(env, s0, d.current, d.current.requests + [q]);
  }

  lemma SuccessesSnoc(executed: seq<S.Executed>, x: S.Executed)
    ensures Successes(executed + [x]) == Successes(executed) + if x.failure == None then 1 else 0
  {
    assert (executed + [x])[..|executed|] == executed;
  }

  /** What serving may do to the logs. */
  ghost predicate Answers(s: Loop, t: Loop, q: Request, failure: Option<string>) {
    && ValidOracle(q.oracle) && failure == FailureOf(ResultOf(Service(s.app, q)))
    && t.events == s.events && t.mirror == s.mirror
    && |t.restored| == |s.restored| + if failure == None then 1 else 0
  }

  lemma ServeAnswers(env: Env, s: Loop, q: Request)
    requires ValidOracle(q.oracle)
    ensures Answers(s, Serve(env, s, q).0, q, FailureOf(Serve(env, s, q).1))
  {
  }

  lemma ListedSnoc(before: seq<Request>, now: seq<Request>, served: seq<Service>, v: Service)
    requires Listed(before + now, served)
    ensures Listed(before + (now + [v.request]), served + [v])
  {
    assert before + (now + [v.request]) == before + now + [v.request];
  }

  lemma ServedSnoc(executed: seq<S.Executed>, served: seq<Service>, x: S.Executed, v: Service)
    requires ServedOk(executed, served) && ValidOracle(v.request.oracle)
    requires x.pending.entryId == v.request.entryId && x.failure == FailureOf(ResultOf(v))
    ensures ServedOk(executed + [x], served + [v])
  {
  }

  lemma ServeShared(d: Daemon, orders: Oracle, t: Loop, failure: Option<string>)
    requires Shared(d) && Ready(d, ServeNext(orders)) && t.events == d.loop.events && t.mirror == d.loop.mirror
    ensures Shared(AfterServe(d, NextRequest(d, orders), t, failure))
  {
  }

  lemma ServeExecutes(d: Daemon, orders: Oracle, t: Loop, failure: Option<string>)
    requires Ready(d, ServeNext(orders))
    ensures var q := NextRequest(d, orders);
            var e := AfterServe(d, q, t, failure);
            && e.sys.executed == d.sys.executed + [S.Executed(d.sys.queue[0], failure)]
            && e.served == d.served + [Service(d.loop.app, q)] && q.entryId == d.sys.queue[0].entryId
            && e.inputs == d.inputs && e.current.requests == d.current.requests + [q]
            && e.stage == d.stage && e.loop == t
  {
  }

  lemma ServeLogs(d: Daemon, orders: Oracle, t: Loop, failure: Option<string>)
    requires LogsOk(d) && Ready(d, ServeNext(orders)) && Answers(d.loop, t, NextRequest(d, orders), failure)
    ensures LogsOk(AfterServe(d, NextRequest(d, orders), t, failure))
  {
    var x, v := S.Executed(d.sys.queue[0], failure), Service(d.loop.app, NextRequest(d, orders));
    ServeShared(d, orders, t, failure);
    ServeExecutes(d, orders, t, failure);
    ListedSnoc(AllRequests(d.inputs), d.current.requests, d.served, v);
    ServedSnoc(d.sys.executed, d.served, x, v);
    SuccessesSnoc(d.sys.executed, x);
  }

  lemma ServeKeeps(env: Env, d: Daemon, orders: Oracle)
    requires ThreadOk(env, d) && ValidOracle(orders) && Ready(d, ServeNext(orders))
    ensures ThreadOk(env, Advance(env, d, ServeNext(orders)))
  {
    var q := NextRequest(d, orders);
    var (t, result) := Serve(env, d.loop, q);
    ServePlaced(env, d, q, FailureOf(result));
    ServeAnswers(env, d.loop, q);
    ServeLogs(d, orders, t, FailureOf(result));
  }

  lemma EndRecorded(env: Env, d: Daemon)
    requires Recorded(d) && Ready(d, End)
    ensures Recorded(Advance(env, d, End))
  {
    assert (d.inputs + [d.current])[..|d.inputs|] == d.inputs;
    assert AllRequests(d.inputs + [d.current]) + [] == AllRequests(d.inputs) + d.current.requests;
  }

  lemma EndInTurn(env: Env, s1: Loop, ids: seq<nat>, d: Daemon)
    requires InTurn(env, s1, ids, d) && d.stage == Examining([])
    ensures d.loop == ServeAll(env, ExamineAll(env, s1, ids), d.current.requests)
  {
    assert d.done + [] == d.done;
  }

  lemma EndPlaced(env: Env, d: Daemon)
    requires Placed(env, d) && Ready(d, End)
    ensures Placed(env, Advance(env, d, End))
  {
    var (s1, outcomes) := Collect(env, RunLoop(env, BOOT, d.inputs), d.current);
    EndInTurn(env, s1, StoredIds(outcomes), d);
    assert (d.inputs + [d.current])[..|d.inputs|] == d.inputs;
  }

  lemma EndKeeps(env: Env, d: Daemon)
    requires ThreadOk(env, d) && Ready(d, End)
    ensures ThreadOk(env, Advance(env, d, End))
  {
    EndPlaced(env, d);
    EndRecorded(env, d);
  }

  lemma AdvanceKeeps(env: Env, d: Daemon, m: Move)
    requires ThreadOk(env, d) && ValidMove(m)
    ensures ThreadOk(env, Advance(env, d, m))
  {
    if m.Client? {
      if IsClientAction(m.action) {
        ClientKeeps(env, d, m.action);
      }
    } else if Ready(d, m) {
      match m
      case Begin(events, oracle) => BeginKeeps(env, d, events, oracle);
      case ExamineNext => ExamineKeeps(env, d);
      case BroadcastNext => BroadcastKeeps(env, d);
      case ServeNext(orders) => ServeKeeps(env, d, orders);
      case End => EndKeeps(env, d);
    }
  }

  /** The step of the server that a move makes, if any. */
  function ActionOf(env: Env, d: Daemon, m: Move): Option<S.Action>
    requires ValidMove(m)
  {
    if m.Client? then if IsClientAction(m.action) then Some(m.action) else None
    else if !Ready(d, m) then None
    else
      match m
      case Begin(_, _) => None
      case ExamineNext =>
        var t := Examine(env, d.loop, d.stage.left[0]);
        if |t.events| == |d.loop.events| || t.events == [] then None else Some(S.Mirror(LastRow(t.events)))
      case BroadcastNext => Some(S.Broadcast)
      case ServeNext(orders) =>
        Some(S.Execute(FailureOf(Serve(env, d.loop, NextRequest(d, orders)).1)))
      case End => None
  }

  lemma AdvanceActs(env: Env, d: Daemon, m: Move)
    requires ValidMove(m)
    ensures var a := ActionOf(env, d, m);
            Advance(env, d, m).sys == if a.Some? then S.Next(d.sys, a.value) else d.sys
  {
  }

  /** The server's steps along a run of the daemon. */
  function Actions(env: Env, moves: seq<Move>): seq<S.Action>
    requires forall m :: m in moves ==> ValidMove(m)
  {
    if moves == [] then []
    else
      var front, m := moves[..|moves| - 1], moves[|moves| - 1];
      var a := ActionOf(env, RunDaemon(env, front), m);
      Actions(env, front) + if a.Some? then [a.value] else []
  }

  lemma RunServerSnoc(actions: seq<S.Action>, a: S.Action)
    ensures S.RunServer(actions + [a]) == S.Next(S.RunServer(actions), a)
    ensures actions + [] == actions
  {
    assert (actions + [a])[..|actions|] == actions;
  }

  /** The daemon's shared state is that of a run of the server, so everything proved of the server holds
      of the daemon. */
  lemma {:induction false} DaemonIsServer(env: Env, moves: seq<Move>)
    requires forall m :: m in moves ==> ValidMove(m)
    ensures RunDaemon(env, moves).sys == S.RunServer(Actions(env, moves))
  {
    if moves != [] {
      var front, m := moves[..|moves| - 1], moves[|moves| - 1];
      DaemonIsServer(env, front);
      assert ValidMove(m);
      AdvanceActs(env, RunDaemon(env, front), m);
      var a := ActionOf(env, RunDaemon(env, front), m);
      if a.Some? {
        RunServerSnoc(Actions(env, front), a.value);
      }
      assert Actions(env, front) + [] == Actions(env, front);
    }
  }

  lemma {:induction false} RunThread(env: Env, moves: seq<Move>)
    requires forall m :: m in moves ==> ValidMove(m)
    ensures ThreadOk(env, RunDaemon(env, moves))
  {
    if moves != [] {
      RunThread(env, moves[..|moves| - 1]);
      assert ValidMove(moves[|moves| - 1]);
      AdvanceKeeps(env, RunDaemon(env, moves[..|moves| - 1]), moves[|moves| - 1]);
    }
  }

  /** The thread ends a turn only when every stored entry was examined and broadcast and no request waits. */
  lemma TurnsEndEmpty(env: Env, d: Daemon, m: Move)
    requires ValidMove(m) && !d.stage.Polling? && Advance(env, d, m).stage.Polling?
    ensures m == End && d.stage == Examining([]) && d.sys.queue == []
  {
  }

  // ---- What the thread guarantees ----

  /** Between turns the Wayland thread is exactly where the sequential loop is after the same turns, with
      the served requests as input; what clients can list is its mirror, what was broadcast are its
      events, and the requests are the accepted ones in order. */
  lemma ThreadRefinesLoop(env: Env, moves: seq<Move>)
    requires forall m :: m in moves ==> ValidMove(m)
    requires RunDaemon(env, moves).stage.Polling?
    ensures var d := RunDaemon(env, moves);
            && (forall i :: i in d.inputs ==> ValidInput(i))
            && d.loop == RunLoop(env, BOOT, d.inputs)
            && d.sys.rows == d.loop.mirror && d.sys.sent == d.loop.events && Mirrored(d.loop)
            && |AllRequests(d.inputs)| == |d.sys.executed| <= |d.sys.accepted|
            && (forall t :: 0 <= t < |d.sys.executed| ==> AllRequests(d.inputs)[t].entryId == d.sys.accepted[t].entryId)
  {
    var d := RunDaemon(env, moves);
    RunThread(env, moves);
    RunMirrors(env, d.inputs);
    DaemonIsServer(env, moves);
    ServerFacts(Actions(env, moves));
    PollingShared(d);
    PollingRecorded(d);
  }

  lemma PollingShared(d: Daemon)
    requires Shared(d) && P.MirrorOk(d.sys) && d.stage.Polling?
    ensures d.sys.rows == d.loop.mirror && d.sys.sent == d.loop.events
  {
    assert d.sys.pushed[..|d.sys.pushed|] == d.sys.pushed;
  }

  lemma PollingRecorded(d: Daemon)
    requires Recorded(d) && ServedOk(d.sys.executed, d.served) && P.QueueOk(d.sys) && d.stage.Polling?
    ensures |AllRequests(d.inputs)| == |d.sys.executed| <= |d.sys.accepted|
    ensures forall t :: 0 <= t < |d.sys.executed| ==> AllRequests(d.inputs)[t].entryId == d.sys.accepted[t].entryId
  {
    assert AllRequests(d.inputs) + [] == AllRequests(d.inputs);
  }

  lemma ServerFacts(actions: seq<S.Action>)
    ensures P.MirrorOk(S.RunServer(actions)) && P.QueueOk(S.RunServer(actions))
  {
    P.RunKeeps(actions);
  }

  ghost predicate Extends(s: Loop, t: Loop) {
    s.events <= t.events && s.suppressed <= t.suppressed
  }

  lemma ExtendsTransitive(s: Loop, t: Loop, u: Loop)
    requires Extends(s, t) && Extends(t, u)
    ensures Extends(s, u)
  {
  }

  lemma ExamineExtends(env: Env, s: Loop, ids: seq<nat>, id: nat)
    ensures Extends(ExamineAll(env, s, ids), ExamineAll(env, s, ids + [id]))
  {
    ExamineAllLast(env, s, ids, id);
  }

  lemma {:induction false} ExamineAllExtends(env: Env, s: Loop, a: seq<nat>, b: seq<nat>)
    ensures Extends(ExamineAll(env, s, a), ExamineAll(env, s, a + b))
  {
    if b == [] {
      assert a + b == a;
    } else {
      var front := a + b[..|b| - 1];
      ExamineAllExtends(env, s, a, b[..|b| - 1]);
      ExamineExtends(env, s, front, b[|b| - 1]);
      assert a + b == front + [b[|b| - 1]];
      ExtendsTransitive(ExamineAll(env, s, a), ExamineAll(env, s, front), ExamineAll(env, s, a + b));
    }
  }

  ghost predicate Apart(events: seq<Summary>, suppressed: seq<Suppression>) {
    forall u, r :: u in suppressed && r in events ==> u.id != r.id
  }

  lemma ApartEarlier(
    events: seq<Summary>, suppressed: seq<Suppression>, events': seq<Summary>, suppressed': seq<Suppression>)
    requires Apart(events', suppressed') && events <= events' && suppressed <= suppressed'
    ensures Apart(events, suppressed)
  {
    assert forall r :: r in events ==> r in events';
    assert forall u :: u in suppressed ==> u in suppressed';
  }

  lemma TurnApart(env: Env, inputs: seq<Input>, i: Input)
    requires (forall j :: j in inputs ==> ValidInput(j)) && ValidInput(i)
    ensures var t := Examined(env, RunLoop(env, BOOT, inputs), i); Apart(t.events, t.suppressed)
  {
    RunIsBooked(env, inputs);
    RunMirrors(env, inputs);
    TurnBooksIds(env, RunLoop(env, BOOT, inputs), i);
    ServeAllKeeps(env, Examined(env, RunLoop(env, BOOT, inputs), i), i.requests);
  }

  /** At every moment, also within a turn, no suppressed entry has been announced. */
  lemma AlwaysApart(env: Env, d: Daemon)
    requires Placed(env, d)
    ensures Apart(d.loop.events, d.loop.suppressed)
  {
    if d.stage.Polling? {
      RunIsBooked(env, d.inputs);
    } else {
      var s0 := RunLoop(env, BOOT, d.inputs);
      var s1 := Collect(env, s0, d.current).0;
      var now, end := ExamineAll(env, s1, d.done), Examined(env, s0, d.current);
      TurnApart(env, d.inputs, d.current);
      ExamineAllExtends(env, s1, d.done, d.stage.left);
      ServeAllKeeps(env, now, d.current.requests);
      ApartEarlier(now.events, now.suppressed, end.events, end.suppressed);
    }
  }

  // ---- What it means for the clients ----

  /** The rows an item shows to its client. */
  function Shown(a: S.Out): seq<Summary> {
    match a
    case Answer(_, _, resp, _, _) => if resp.Entries? then resp.rows else []
    case Event(_, row) => [row]
    case Lagged(_, _) => []
  }

  lemma ShownWasPushed(s: S.System, k: nat, c: S.Client, a: S.Out, r: Summary)
    requires P.ClientOk(s, k, c) && P.MirrorOk(s) && a in c.out && r in Shown(a)
    ensures r in s.pushed
  {
    if a.Event? {
      P.CoveredTellsOnce(c.out, c.start, s.sent, a.pos);
    } else {
      var line := c.lines[a.line - 1];
      assert P.Fits(s, k, line, a);
      assert forall x :: x in P.SnapshotAt(s.pushed, a.mirrored) ==> x in s.pushed;
      var j :| 0 <= j < |a.resp.rows| && a.resp.rows[j] == r;
    }
  }

  /** No client is ever shown a suppressed entry, neither in an event nor in a page. */
  lemma SuppressedIsNeverShown(env: Env, moves: seq<Move>, k: nat, a: S.Out, r: Summary, u: Suppression)
    requires forall m :: m in moves ==> ValidMove(m)
    requires k < |RunDaemon(env, moves).sys.clients| && a in RunDaemon(env, moves).sys.clients[k].out
    requires r in Shown(a) && u in RunDaemon(env, moves).loop.suppressed
    ensures r.id != u.id
  {
    var d := RunDaemon(env, moves);
    RunThread(env, moves);
    AlwaysApart(env, d);
    DaemonIsServer(env, moves);
    P.RunKeeps(Actions(env, moves));
    ShownWasPushed(d.sys, k, d.sys.clients[k], a, r);
  }

  lemma {:induction false} SuccessesAtMost(executed: seq<S.Executed>)
    ensures Successes(executed) <= |executed|
  {
    if executed != [] {
      SuccessesAtMost(executed[..|executed| - 1]);
    }
  }

  lemma BookedWithin(env: Env, s: Loop, i: Input, ids: seq<nat>)
    requires ValidInput(i) && Booked(s) && RestoredBefore(s, s.iteration)
    ensures Booked(ServeAll(env, ExamineAll(env, Collect(env, s, i).0, ids), i.requests))
  {
    CollectRuns(env, s, i);
    ExamineAllBooks(env, Collect(env, s, i).0, ids);
    ServeAllBooks(env, ExamineAll(env, Collect(env, s, i).0, ids), i.requests);
  }

  /** The books are in order at every moment, also within a turn. */
  lemma AlwaysBooked(env: Env, d: Daemon)
    requires Placed(env, d)
    ensures Booked(d.loop)
  {
    RunIsBooked(env, d.inputs);
    if !d.stage.Polling? {
      BookedWithin(env, RunLoop(env, BOOT, d.inputs), d.current, d.done);
    }
  }

  /** At every moment, the suppressed entries number at most the client requests that succeeded: nothing
      is ever suppressed that no client's restore can account for. */
  lemma SuppressionsHaveClients(env: Env, moves: seq<Move>)
    requires forall m :: m in moves ==> ValidMove(m)
    ensures var d := RunDaemon(env, moves);
            |d.loop.suppressed| <= Successes(d.sys.executed) <= |d.sys.executed| <= |d.sys.accepted|
  {
    var d := RunDaemon(env, moves);
    RunThread(env, moves);
    AlwaysBooked(env, d);
    IncreasingBound(d.loop.suppressed, |d.loop.restored|);
    SuccessesAtMost(d.sys.executed);
    DaemonIsServer(env, moves);
    ServerFacts(Actions(env, moves));
  }

  /** Serving `v` published entry `e`: its content was looked up, offered and selected, and the source
      that was owned before was destroyed after that. */
  ghost predicate Publishes(v: Service, e: nat) {
    && v.request.entryId == e && ValidOracle(v.request.oracle)
    && var entry, orders, after := Find(v.before.history.entries, e), v.request.oracle,
                                   Restore(v.request.oracle, v.before, e).0;
       && entry.Some?
       && var published := PublishedFor(orders, entry.value.content);
          && after.source == Some(v.before.nextSource)
          && after.trace == v.before.trace +
               RestoreRequests(v.before.nextSource, published, orders.hash(1, published.Keys), v.before.source)
  }

  lemma SuccessPublishes(v: Service)
    requires ValidOracle(v.request.oracle) && FailureOf(ResultOf(v)) == None
    ensures Publishes(v, v.request.entryId)
  {
  }

  /** A client is told `Restored` for an entry only if serving the request of that very line published the
      entry on the Wayland connection. */
  lemma RestoredMeansPublished(env: Env, moves: seq<Move>, k: nat, a: S.Out)
    requires forall m :: m in moves ==> ValidMove(m)
    requires k < |RunDaemon(env, moves).sys.clients|
    requires a in RunDaemon(env, moves).sys.clients[k].out && a.Answer? && a.resp.Restored?
    ensures var d := RunDaemon(env, moves);
            && P.ReportsSuccess(d.sys, k, d.sys.clients[k].lines, a)
            && a.ticket.value < |d.served| && Publishes(d.served[a.ticket.value], a.resp.entryId)
  {
    var d := RunDaemon(env, moves);
    RunThread(env, moves);
    DaemonIsServer(env, moves);
    P.RestoredMeansExecuted(Actions(env, moves), k, a);
    SuccessPublishes(d.served[a.ticket.value]);
  }

  // ---- What errors mean ----

  /** The errors that the server itself reports while a restore or a listing is under way. */
  predicate IsServerError(message: string) {
    || message == "restore timed out" || message == "restore failed: wayland thread gone"
    || message == "daemon shutting down" || message == "history unavailable"
  }

  lemma FailuresAreOthers(r: RestoreResult, message: string)
    requires IsServerError(message)
    ensures FailureOf(r) != Some(message)
  {
    assert |"not found"| == 9 && |"no manager"| == 10 && |"no device"| == 9;
    assert |"restore timed out"| == 17 && |"history unavailable"| == 19 && |"daemon shutting down"| == 20;
    assert |"restore failed: wayland thread gone"| == 35;
  }

  lemma {:induction false} ActionsAreMoves(env: Env, moves: seq<Move>, a: S.Action)
    requires (forall m :: m in moves ==> ValidMove(m)) && a in Actions(env, moves) && a.Act?
    ensures Client(a) in moves
  {
    var front, m := moves[..|moves| - 1], moves[|moves| - 1];
    assert m in moves;
    if a in Actions(env, front) {
      ActionsAreMoves(env, front, a);
    }
  }

  /** Over every run of the daemon: a client is told that its restore timed out only after a timeout of its
      own task, that the thread is gone or the daemon shuts down only when its task met that, and that the
      history is unavailable only after it listed under a poisoned lock. */
  lemma ErrorsMeanWhatTheySay(env: Env, moves: seq<Move>, k: nat, a: S.Out) returns (step: S.Step)
    requires forall m :: m in moves ==> ValidMove(m)
    requires k < |RunDaemon(env, moves).sys.clients| && a in RunDaemon(env, moves).sys.clients[k].out
    requires a.Answer? && a.resp.Error? && IsServerError(a.resp.message)
    ensures Client(S.Act(k, step)) in moves && R.Explains(step, a.resp.message)
  {
    var d, actions := RunDaemon(env, moves), Actions(env, moves);
    RunThread(env, moves);
    DaemonIsServer(env, moves);
    R.ErrorsExplained(actions, k, a);
    NoSuchFailure(d.sys.executed, d.served, a.resp.message);
    var action :| action in actions && action.Act? && action.client == k && R.Explains(action.step, a.resp.message);
    ActionsAreMoves(env, moves, action);
    step := action.step;
  }

  lemma NoSuchFailure(executed: seq<S.Executed>, served: seq<Service>, message: string)
    requires ServedOk(executed, served) && IsServerError(message)
    ensures forall x :: x in executed ==> x.failure != Some(message)
  {
    forall x | x in executed ensures x.failure != Some(message) {
      var t :| 0 <= t < |executed| && executed[t] == x;
      FailuresAreOthers(ResultOf(served[t]), message);
    }
  }

  /** The message tells the first reason for which a restore of `e` fails. */
  ghost predicate Refuses(a: App, e: nat, message: string) {
    var held := exists x :: x in a.history.entries && x.id == e;
    && (message == "not found" <==> !held)
    && (message == "no manager" <==> held && !a.manager)
    && (message == "no device" <==> held && a.manager && !a.device)
    && (held && a.manager ==> !a.device)
  }

  lemma FailureRefuses(v: Service, message: string)
    requires ValidOracle(v.request.oracle) && FailureOf(ResultOf(v)) == Some(message)
    ensures Refuses(v.before, v.request.entryId, message)
  {
    assert |"not found"| == 9 && |"no manager"| == 10 && |"no device"| == 9;
    assert "not found"[2] != "no device"[2];
  }

  lemma AnswerReports(s: S.System, k: nat, c: S.Client, a: S.Out, e: nat)
    requires P.QueueOk(s) && P.RepliesOk(s, k, c) && a in c.out && a.Answer? && a.resp.Error?
    requires 1 <= a.line <= |c.lines| && P.Asks(c.lines[a.line - 1], a.id, e) && !IsServerError(a.resp.message)
    ensures a.ticket.Some? && a.ticket.value < |s.executed|
    ensures s.executed[a.ticket.value] == S.Executed(S.Pending(k, a.line, e), Some(a.resp.message))
  {
    assert P.Fits(s, k, c.lines[a.line - 1], a);
  }

  /** Any other error that the answer to a `Restore` carries is the true reason, at the moment its request was
      served, why this very entry could not be restored. */
  lemma RefusalsAreTrue(env: Env, moves: seq<Move>, k: nat, a: S.Out, e: nat)
    requires forall m :: m in moves ==> ValidMove(m)
    requires k < |RunDaemon(env, moves).sys.clients| && a in RunDaemon(env, moves).sys.clients[k].out
    requires a.Answer? && a.resp.Error? && !IsServerError(a.resp.message)
    requires var lines := RunDaemon(env, moves).sys.clients[k].lines;
             1 <= a.line <= |lines| && P.Asks(lines[a.line - 1], a.id, e)
    ensures var d := RunDaemon(env, moves);
            && a.ticket.Some? && a.ticket.value < |d.served|
            && var v := d.served[a.ticket.value];
               v.request.entryId == e && Refuses(v.before, e, a.resp.message)
  {
    var d := RunDaemon(env, moves);
    RunThread(env, moves);
    DaemonIsServer(env, moves);
    P.RunKeeps(Actions(env, moves));
    AnswerReports(d.sys, k, d.sys.clients[k], a, e);
    FailureRefuses(d.served[a.ticket.value], a.resp.message);
  }
}
