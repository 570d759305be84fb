/** The daemon as one system: the Wayland thread of `src/main.rs`, taken apart into its visible steps,
    interleaved with the client tasks of `src/daemon/server.rs`. */
module Daemons {
  import opened Seqs
  import opened Snapshots
  import opened Drains
  import opened AppStates
  import opened EventLoops
  import S = Servers

  /** Between turns; examining the stored ids that are left; between mirroring a row and broadcasting it. */
  datatype Stage = Polling | Examining(left: seq<nat>) | Announcing(left: seq<nat>)

  /** A request as it was served: the state before, the request, the iteration orders. */
  datatype Service = Service(before: App, request: Request)

  /** `inputs` are the inputs of the finished turns, `current` that of the turn in progress, `done` the ids
      it has examined and `served` all requests served so far: bookkeeping only. */
  datatype Daemon = Daemon(
    loop: Loop, sys: S.System, stage: Stage,
    inputs: seq<Input>, current: Input, done: seq<nat>, served: seq<Service>)

  datatype Move =
    | Client(action: S.Action)
    // the Wayland thread
    | Begin(events: seq<Event>, oracle: Oracle)
    | ExamineNext
    | BroadcastNext
    | ServeNext(orders: Oracle)
    | End

  ghost predicate ValidMove(m: Move) {
    match m
    case Begin(_, oracle) => ValidOracle(oracle)
    case ServeNext(orders) => ValidOracle(orders)
    case _ => true
  }

  /** The Wayland thread acts through the moves below; a client action may also be the end of the thread. */
  predicate IsClientAction(a: S.Action) {
    a.Connect? || a.Act? || a.Shutdown?
  }

  /** What the client of a failed restore is told; the texts of `src/error.rs` are abbreviated. */
  function FailureOf(r: RestoreResult): Option<string> {
    match r
    case Restored => None
    case EntryNotFound(_) => Some("not found")
    case NoManager => Some("no manager")
    case NoDevice => Some("no device")
  }

  /** Whether the Wayland thread can make the move now. */
  predicate Ready(d: Daemon, m: Move) {
    d.sys.open &&
    match m
    case Client(_) => false
    case Begin(_, _) => d.stage.Polling?
    case ExamineNext => d.stage.Examining? && d.stage.left != []
    case BroadcastNext => d.stage.Announcing?
    case ServeNext(_) => d.stage == Examining([]) && d.sys.queue != []
    case End => d.stage == Examining([]) && d.sys.queue == []
  }

  /** The next stored id was examined; `t` is where that led. A row that was announced is mirrored. */
  function AfterExamine(d: Daemon, t: Loop): Daemon
    requires Ready(d, ExamineNext)
  {
    var e := d.(loop := t, done := d.done + [d.stage.left[0]]);
    if |t.events| == |d.loop.events| || t.events == [] then e.(stage := Examining(d.stage.left[1..]))
    else e.(stage := Announcing(d.stage.left[1..]), sys := S.Next(d.sys, S.Mirror(LastRow(t.events))))
  }

  function LastRow(rows: seq<Summary>): Summary
    requires rows != []
  {
    rows[|rows| - 1]
  }

  function NextRequest(d: Daemon, orders: Oracle): Request
    requires Ready(d, ServeNext(orders))
  {
    Request(d.sys.queue[0].entryId, orders)
  }

  /** The oldest request in the queue was served, with the given failure, if any. */
  function AfterServe(d: Daemon, q: Request, t: Loop, failure: Option<string>): Daemon {
    d.(loop := t, sys := S.Next(d.sys, S.Execute(failure)),
       current := d.current.(requests := d.current.requests + [q]),
       served := d.served + [Service(d.loop.app, q)])
  }

  function BeginMove(env: Env, d: Daemon, i: Input): Daemon
    requires ValidInput(i)
  {
    var (s1, outcomes) := Collect(env, d.loop, i);
    d.(loop := s1, stage := Examining(StoredIds(outcomes)), current := i, done := [])
  }

  function Advance(env: Env, d: Daemon, m: Move): Daemon
    requires ValidMove(m)
  {
    if m.Client? then if IsClientAction(m.action) then d.(sys := S.Next(d.sys, m.action)) else d
    else if !Ready(d, m) then d
    else
      match m
      case Begin(events, oracle) => BeginMove(env, d, Input(events, oracle, []))
      case ExamineNext => AfterExamine(d, Examine(env, d.loop, d.stage.left[0]))
      case BroadcastNext => d.(sys := S.Next(d.sys, S.Broadcast), stage := Examining(d.stage.left))
      case ServeNext(orders) =>
        var (t, result) := Serve(env, d.loop, NextRequest(d, orders));
        AfterServe(d, NextRequest(d, orders), t, FailureOf(result))
      case End =>
        d.(loop := d.loop.(iteration := d.loop.iteration + 1), stage := Polling, inputs := d.inputs + [d.current])
  }

  const IDLE := Daemon(BOOT, S.START, Polling, [], Input([], Oracle((_, _) => [], _ => 0), []), [], [])

  function RunDaemon(env: Env, moves: seq<Move>): Daemon
    requires forall m :: m in moves ==> ValidMove(m)
  {
    if moves == [] then IDLE else Advance(env, RunDaemon(env, moves[..|moves| - 1]), moves[|moves| - 1])
  }
}
