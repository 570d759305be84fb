/** `handle_client` and `serve` of `src/daemon/server.rs`: one task per client, as steps that
    interleave with the other clients and with the Wayland thread. */
module Servers {
  import opened Config
  import opened Seqs
  import opened Snapshots

  datatype UiRequest = List(offset: nat, limit: nat) | Restore(entryId: nat) | Ping | Subscribe

  datatype Response =
    | Entries(total: nat, rows: seq<Summary>)
    | Restored(entryId: nat)
    | Pong
    | Subscribed
    | Error(message: string)

  /** What a line parses to; a line that does not parse may still yield an id (else ""). */
  datatype Parsed = Bad(id: string) | Good(id: string, req: UiRequest)

  datatype Line = Line(bytes: nat, parsed: Parsed)

  /** What a client was sent. The line number (from 1), the ticket, the number of rows mirrored so far and
      the positions are bookkeeping: the wire carries the id and the response, the row, or the notice. */
  datatype Out =
    | Answer(line: nat, id: string, resp: Response, ticket: Option<nat>, mirrored: nat)
    | Event(pos: nat, row: Summary)
    | Lagged(from: nat, to: nat)

  /** Where the task is: in `select!`, in `req_tx.send`, or awaiting its oneshot. A ticket is the
      position of the request among all accepted ones. */
  datatype Phase = Idle | Sending(id: string, entryId: nat) | Waiting(id: string, ticket: nat)

  /** `start` is the position of the receiver at its creation, `next` its position now; `intact` is
      false once a write failed. */
  datatype Client = Client(
    alive: bool, subscribed: bool, phase: Phase, start: nat, next: nat,
    lines: seq<Line>, out: seq<Out>, intact: bool)

  /** A request in the restore queue: which line of which client asked for which entry. */
  datatype Pending = Pending(client: nat, line: nat, entryId: nat)

  /** What the Wayland thread did with a request; `failure` is the error of `restore_entry`, if any. */
  datatype Executed = Executed(pending: Pending, failure: Option<string>)

  function ResponseOf(x: Executed): Response {
    match x.failure
    case None => Restored(x.pending.entryId)
    case Some(message) => Error(message)
  }

  // ---- One client task ----

  /** `send_envelope`, closing the connection when the write fails. */
  function Send(c: Client, resp: Response, id: string, ticket: Option<nat>, mirrored: nat, ok: bool): Client {
    var idle := c.(phase := Idle);
    if ok then idle.(out := c.out + [Answer(|c.lines|, id, resp, ticket, mirrored)])
    else idle.(alive := false, intact := false)
  }

  /** The `read_line` arm up to its first suspension; `rows` is the snapshot. */
  function Hear(c0: Client, rows: seq<Summary>, mirrored: nat, line: Line, poisoned: bool, ok: bool): Client {
    var c := c0.(lines := c0.lines + [line]);
    if line.bytes > MAX_LINE_BYTES then
      // Best effort: a failed write does not close the connection here.
      Send(c, Error("line too long"), "", None, mirrored, ok).(alive := c.alive)
    else
      match line.parsed
      case Bad(id) => Send(c, Error("invalid request"), id, None, mirrored, ok)
      case Good(id, req) =>
        match req
        case List(offset, limit) =>
          if poisoned then Send(c, Error("history unavailable"), id, None, mirrored, ok)
          else
            var (total, page) := Page(rows, offset, limit);
            Send(c, Entries(total, page), id, None, mirrored, ok)
        case Restore(entryId) => c.(phase := Sending(id, entryId))
        case Ping => Send(c, Pong, id, None, mirrored, ok)
        case Subscribe => Send(c.(subscribed := true), Subscribed, id, None, mirrored, ok)
  }

  /** The oldest event the broadcast ring still holds. */
  function Oldest(sent: seq<Summary>): nat {
    if |sent| <= BROADCAST_CAPACITY then 0 else |sent| - BROADCAST_CAPACITY
  }

  /** The `recv` arm. */
  function Receive(c: Client, sent: seq<Summary>, ok: bool): Client
    requires c.next < |sent|
  {
    if !ok then c.(alive := false, intact := false)
    else if c.next < Oldest(sent) then c.(next := Oldest(sent), out := c.out + [Lagged(c.next, Oldest(sent))])
    else c.(next := c.next + 1, out := c.out + [Event(c.next, sent[c.next])])
  }

  // ---- The whole server ----

  /** `pushed` is every row ever mirrored, `sent` every row ever broadcast, `accepted` every request
      that ever entered the queue, `executed` what the Wayland thread did, in order. */
  datatype System = System(
    clients: seq<Client>, queue: seq<Pending>, accepted: seq<Pending>, executed: seq<Executed>,
    rows: seq<Summary>, pushed: seq<Summary>, sent: seq<Summary>, open: bool)

  const START := System([], [], [], [], [], [], [], true)

  /** Steps of a client task; `ok` says whether the write of the step succeeds. */
  datatype Step =
    | Read(line: Line, poisoned: bool, ok: bool)
    | Enqueue(ok: bool)
    | Resolve(ok: bool)
    | Timeout(ok: bool)
    | Gone(ok: bool)
    | Deliver(ok: bool)
    | Disconnect

  datatype Action =
    | Connect
    | Act(client: nat, step: Step)
    // the Wayland thread
    | Execute(failure: Option<string>)
    | Mirror(row: Summary)
    | Broadcast
    | Shutdown

  /** Whether the task can take the step now. */
  predicate CanStep(s: System, c: Client, step: Step) {
    c.alive &&
    match step
    case Read(_, _, _) => c.phase.Idle?
    case Enqueue(_) => c.phase.Sending? && (!s.open || |s.queue| < RESTORE_QUEUE_CAPACITY)
    case Resolve(_) => c.phase.Waiting? && c.phase.ticket < |s.executed|
    case Timeout(_) => c.phase.Waiting?
    case Gone(_) => c.phase.Waiting? && !s.open && c.phase.ticket >= |s.executed|
    case Deliver(_) => c.phase.Idle? && c.subscribed && c.next < |s.sent|
    case Disconnect => true
  }

  predicate Enabled(s: System, a: Action) {
    match a
    case Connect => true
    case Act(k, step) => k < |s.clients| && CanStep(s, s.clients[k], step)
    case Execute(_) => s.open && s.queue != []
    case Mirror(_) => s.open && |s.pushed| == |s.sent|
    case Broadcast => s.open && |s.pushed| == |s.sent| + 1
    case Shutdown => true
  }

  /** The client after one of its own steps. */
  function ClientStep(s: System, c: Client, step: Step): Client
    requires CanStep(s, c, step)
  {
    match step
    case Read(line, poisoned, ok) => Hear(c, s.rows, |s.pushed|, line, poisoned, ok)
    case Enqueue(ok) =>
      if !s.open then Send(c, Error("daemon shutting down"), c.phase.id, None, |s.pushed|, ok)
      else c.(phase := Waiting(c.phase.id, |s.accepted|))
    case Resolve(ok) =>
      Send(c, ResponseOf(s.executed[c.phase.ticket]), c.phase.id, Some(c.phase.ticket), |s.pushed|, ok)
    case Timeout(ok) => Send(c, Error("restore timed out"), c.phase.id, Some(c.phase.ticket), |s.pushed|, ok)
    case Gone(ok) =>
      Send(c, Error("restore failed: wayland thread gone"), c.phase.id, Some(c.phase.ticket), |s.pushed|, ok)
    case Deliver(ok) => Receive(c, s.sent, ok)
    case Disconnect => c.(alive := false)
  }

  function Next(s: System, a: Action): System {
    if !Enabled(s, a) then s
    else
      match a
      case Connect =>
        s.(clients := s.clients + [Accepted(|s.sent|)])
      case Act(k, step) =>
        var c := s.clients[k];
        var t := s.(clients := s.clients[k := ClientStep(s, c, step)]);
        if step.Enqueue? && s.open then
          var p := Pending(k, |c.lines|, c.phase.entryId);
          t.(queue := s.queue + [p], accepted := s.accepted + [p])
        else t
      case Execute(failure) => s.(queue := s.queue[1..], executed := s.executed + [Executed(s.queue[0], failure)])
      case Mirror(row) => s.(rows := Last(s.rows + [row], MAX_HISTORY), pushed := s.pushed + [row])
      case Broadcast => s.(sent := s.sent + [s.pushed[|s.sent|]])
      case Shutdown => s.(open := false)
  }

  function RunServer(actions: seq<Action>): System {
    if actions == [] then START else Next(RunServer(actions[..|actions| - 1]), actions[|actions| - 1])
  }

  // ---- The task of one client, as a loop ----

  /** A client that was just accepted; its receiver starts at the given position. */
  function Accepted(position: nat): Client {
    Client(true, false, Idle, position, position, [], [], true)
  }

  /** The client after the steps of a schedule, each taken in the state of the system at its time. */
  function Follow(c: Client, schedule: seq<(System, Step)>): Client {
    if schedule == [] then c
    else
      var before, (s, step) := Follow(c, schedule[..|schedule| - 1]), schedule[|schedule| - 1];
      if CanStep(s, before, step) then ClientStep(s, before, step) else before
  }

  class ClientTask {
    var alive: bool
    var subscribed: bool
    var phase: Phase
    var next: nat
    const start: nat
    ghost var lines: seq<Line>
    ghost var out: seq<Out>
    ghost var intact: bool

    ghost function View(): Client
      reads this
    {
      Client(alive, subscribed, phase, start, next, lines, out, intact)
    }

    constructor (position: nat)
      ensures View() == Accepted(position)
    {
      alive, subscribed, phase := true, false, Idle;
      start, next := position, position;
      lines, out, intact := [], [], true;
    }

    method SendEnvelope(resp: Response, id: string, ghost ticket: Option<nat>, ghost mirrored: nat, ok: bool)
      modifies this
      ensures View() == Send(old(View()), resp, id, ticket, mirrored, ok)
    {
      phase := Idle;
      if ok {
        out := out + [Answer(|lines|, id, resp, ticket, mirrored)];
      } else {
        alive := false;
        intact := false;
      }
    }

    /** The `read_line` arm up to its first suspension. */
    method HandleLine(line: Line, rows: seq<Summary>, ghost mirrored: nat, poisoned: bool, ok: bool)
      modifies this
      ensures View() == Hear(old(View()), rows, mirrored, line, poisoned, ok)
    {
      lines := lines + [line];
      if line.bytes > MAX_LINE_BYTES {
        var before := alive;
        SendEnvelope(Error("line too long"), "", None, mirrored, ok);
        alive := before;
        return;
      }
      match line.parsed {
        case Bad(id) => SendEnvelope(Error("invalid request"), id, None, mirrored, ok);
        case Good(id, req) =>
          match req {
            case List(offset, limit) =>
              if poisoned {
                SendEnvelope(Error("history unavailable"), id, None, mirrored, ok);
              } else {
                var total, page := Snapshot.ListSnapshot(rows, offset, limit);
                SendEnvelope(Entries(total, page), id, None, mirrored, ok);
              }
            case Restore(entryId) => phase := Sending(id, entryId);
            case Ping => SendEnvelope(Pong, id, None, mirrored, ok);
            case Subscribe =>
              subscribed := true;
              SendEnvelope(Subscribed, id, None, mirrored, ok);
          }
      }
    }

    /** `req_tx.send(..).await`: the request enters the queue, or the Wayland thread is gone. */
    method HandOver(open: bool, ticket: nat, ghost mirrored: nat, ok: bool)
      requires phase.Sending?
      modifies this
      ensures View() ==
              if open then old(View()).(phase := Waiting(old(phase).id, ticket))
              else Send(old(View()), Error("daemon shutting down"), old(phase).id, None, mirrored, ok)
    {
      if open {
        phase := Waiting(phase.id, ticket);
      } else {
        SendEnvelope(Error("daemon shutting down"), phase.id, None, mirrored, ok);
      }
    }

    /** `timeout(.., rx).await` is over, with a result, a timeout or a dropped sender; answer the request. */
    method AnswerRestore(resp: Response, ghost mirrored: nat, ok: bool)
      requires phase.Waiting?
      modifies this
      ensures View() == Send(old(View()), resp, old(phase).id, Some(old(phase).ticket), mirrored, ok)
    {
      SendEnvelope(resp, phase.id, Some(phase.ticket), mirrored, ok);
    }

    /** The `recv` arm. */
    method HandleBroadcast(sent: seq<Summary>, ok: bool)
      requires next < |sent|
      modifies this
      ensures View() == Receive(old(View()), sent, ok)
    {
      if !ok {
        alive := false;
        intact := false;
      } else if next < Oldest(sent) {
        out := out + [Lagged(next, Oldest(sent))];
        next := Oldest(sent);
      } else {
        out := out + [Event(next, sent[next])];
        next := next + 1;
      }
    }

    /** Whether the task is where it can take the step. */
    predicate Ready(s: System, step: Step): (r: bool)
      reads this
      ensures r <==> CanStep(s, View(), step)
    {
      alive &&
      match step
      case Read(_, _, _) => phase.Idle?
      case Enqueue(_) => phase.Sending? && (!s.open || |s.queue| < RESTORE_QUEUE_CAPACITY)
      case Resolve(_) => phase.Waiting? && phase.ticket < |s.executed|
      case Timeout(_) => phase.Waiting?
      case Gone(_) => phase.Waiting? && !s.open && phase.ticket >= |s.executed|
      case Deliver(_) => phase.Idle? && subscribed && next < |s.sent|
      case Disconnect => true
    }

    method TakeStep(s: System, step: Step)
      requires Ready(s, step)
      modifies this
      ensures View() == ClientStep(s, old(View()), step)
    {
      ghost var mirrored := |s.pushed|;
      match step {
        case Read(line, poisoned, ok) => HandleLine(line, s.rows, mirrored, poisoned, ok);
        case Enqueue(ok) => HandOver(s.open, |s.accepted|, mirrored, ok);
        case Resolve(ok) => AnswerRestore(ResponseOf(s.executed[phase.ticket]), mirrored, ok);
        case Timeout(ok) => AnswerRestore(Error("restore timed out"), mirrored, ok);
        case Gone(ok) => AnswerRestore(Error("restore failed: wayland thread gone"), mirrored, ok);
        case Deliver(ok) => HandleBroadcast(s.sent, ok);
        case Disconnect => alive := false;
      }
    }

    /** The loop of `handle_client`: one step after the other, as the outcomes of its awaits dictate. */
    method HandleClient(schedule: seq<(System, Step)>)
      modifies this
      ensures View() == Follow(old(View()), schedule)
    {
      for i := 0 to |schedule|
        invariant View() == Follow(old(View()), schedule[..i])
      {
        assert schedule[..i + 1][..i] == schedule[..i];
        var (s, step) := schedule[i];
        if Ready(s, step) {
          TakeStep(s, step);
        }
      }
      assert schedule[..|schedule|] == schedule;
    }
  }

  // ---- Every client of the server runs that loop ----

  /** The steps that client `k` takes along a run, each with the state it was taken in. */
  function Schedule(actions: seq<Action>, k: nat): seq<(System, Step)> {
    if actions == [] then []
    else
      var front, a := actions[..|actions| - 1], actions[|actions| - 1];
      Schedule(front, k) +
      if a.Act? && a.client == k && Enabled(RunServer(front), a) then [(RunServer(front), a.step)] else []
  }

  lemma {:induction false} NotYetConnected(actions: seq<Action>, k: nat)
    requires k >= |RunServer(actions).clients|
    ensures Schedule(actions, k) == []
  {
    if actions != [] {
      NotYetConnected(actions[..|actions| - 1], k);
    }
  }

  lemma FollowSnoc(c: Client, schedule: seq<(System, Step)>, s: System, step: Step)
    ensures Follow(c, schedule + []) == Follow(c, schedule)
    ensures var before := Follow(c, schedule);
            Follow(c, schedule + [(s, step)]) ==
            if CanStep(s, before, step) then ClientStep(s, before, step) else before
  {
    assert schedule + [] == schedule;
    assert (schedule + [(s, step)])[..|schedule|] == schedule;
  }

  lemma StartIsKept(s: System, c: Client, step: Step)
    requires CanStep(s, c, step)
    ensures ClientStep(s, c, step).start == c.start
  {
  }

  lemma ActMoves(s: System, a: Action)
    requires a.Act? && Enabled(s, a)
    ensures var t := Next(s, a);
            |t.clients| == |s.clients| && t.clients[a.client] == ClientStep(s, s.clients[a.client], a.step)
  {
  }

  lemma OthersStay(s: System, a: Action, k: nat)
    requires k < |s.clients| && !(a.Act? && a.client == k && Enabled(s, a))
    ensures var t := Next(s, a); |s.clients| <= |t.clients| && t.clients[k] == s.clients[k]
  {
  }

  /** In every interleaving, each client is where the loop of its task is after the steps it took. */
  lemma {:induction false} ClientsFollow(actions: seq<Action>, k: nat)
    requires k < |RunServer(actions).clients|
    ensures RunServer(actions).clients[k] == Follow(Accepted(RunServer(actions).clients[k].start), Schedule(actions, k))
  {
    var front, a := actions[..|actions| - 1], actions[|actions| - 1];
    var s := RunServer(front);
    if k < |s.clients| {
      ClientsFollow(front, k);
      if a.Act? && a.client == k && Enabled(s, a) {
        FollowSnoc(Accepted(s.clients[k].start), Schedule(front, k), s, a.step);
        StartIsKept(s, s.clients[k], a.step);
        ActMoves(s, a);
      } else {
        FollowSnoc(Accepted(s.clients[k].start), Schedule(front, k), s, Disconnect);
        OthersStay(s, a, k);
      }
    } else {
      NotYetConnected(front, k);
      assert Schedule(actions, k) == [];
    }
  }
}
