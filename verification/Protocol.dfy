/** What the server guarantees its clients, over every interleaving of clients and Wayland thread. */
module Protocol {
  import opened Config
  import opened Seqs
  import opened Snapshots
  import opened Servers

  // ---- Replies ----

  function IdOf(line: Line): string {
    if line.bytes > MAX_LINE_BYTES then "" else line.parsed.id
  }

  predicate Asks(line: Line, id: string, entryId: nat) {
    line.bytes <= MAX_LINE_BYTES && line.parsed == Good(id, UiRequest.Restore(entryId))
  }

  /** The snapshot after the first `n` rows were mirrored. */
  function SnapshotAt(pushed: seq<Summary>, n: nat): seq<Summary>
    requires n <= |pushed|
  {
    Last(pushed[..n], MAX_HISTORY)
  }

  /** The answer fits the line. A page is cut from the snapshot at the moment of the answer. A restore is
      answered from the ticket of that very line: by what executing that request gave, or by a timeout
      or shutdown error. */
  predicate Fits(s: System, k: nat, line: Line, a: Out)
    requires a.Answer?
  {
    && a.id == IdOf(line) && a.mirrored <= |s.pushed|
    && if line.bytes > MAX_LINE_BYTES then a.resp == Error("line too long")
       else if line.parsed.Bad? then a.resp == Error("invalid request")
       else match line.parsed.req
       case List(offset, limit) =>
         var (total, page) := Page(SnapshotAt(s.pushed, a.mirrored), offset, limit);
         a.resp == Entries(total, page) || a.resp == Error("history unavailable")
       case Ping => a.resp == Pong
       case Subscribe => a.resp == Subscribed
       case Restore(e) =>
         match a.ticket
         case None => a.resp == Error("daemon shutting down")
         case Some(t) =>
           && t < |s.accepted| && s.accepted[t] == Pending(k, a.line, e)
           && (|| a.resp == Error("restore timed out")
               || a.resp == Error("restore failed: wayland thread gone")
               || (t < |s.executed| && a.resp == ResponseOf(s.executed[t])))
  }

  /** The lines answered so far, in the order of the answers. */
  function AnsweredLines(out: seq<Out>): seq<nat> {
    if out == [] then []
    else AnsweredLines(out[..|out| - 1]) + if out[|out| - 1].Answer? then [out[|out| - 1].line] else []
  }

  /** The lines whose handling is over. */
  function Handled(c: Client): nat {
    if c.phase.Idle? || c.lines == [] then |c.lines| else |c.lines| - 1
  }

  ghost predicate Ascending(lines: seq<nat>, n: nat) {
    && (forall i, j :: 0 <= i < j < |lines| ==> lines[i] < lines[j])
    && (forall i :: 0 <= i < |lines| ==> 1 <= lines[i] <= n)
  }

  /** Answers come in line order and fit their lines; while no write failed, every handled line has one. */
  ghost predicate RepliesOk(s: System, k: nat, c: Client) {
    && Ascending(AnsweredLines(c.out), Handled(c))
    && (c.intact ==> |AnsweredLines(c.out)| == Handled(c))
    && (forall a :: a in c.out && a.Answer? ==>
          1 <= a.line <= Handled(c) && Fits(s, k, c.lines[a.line - 1], a))
  }

  /** A task that is sending or waiting does so for its last line. */
  ghost predicate PhaseOk(accepted: seq<Pending>, k: nat, c: Client) {
    match c.phase
    case Idle => true
    case Sending(id, e) => c.lines != [] && Asks(c.lines[|c.lines| - 1], id, e)
    case Waiting(id, t) =>
      t < |accepted| && c.lines != [] && accepted[t].client == k && accepted[t].line == |c.lines| &&
      Asks(c.lines[|c.lines| - 1], id, accepted[t].entryId)
  }

  /** The client's accepted requests come from its lines, not from one that is still being sent. */
  ghost predicate RequestsOk(accepted: seq<Pending>, k: nat, c: Client) {
    forall p :: p in accepted && p.client == k ==>
      p.line <= if c.phase.Sending? then |c.lines| - 1 else |c.lines|
  }

  // ---- Subscriptions ----

  /** Follows the events and lag notices a client was sent, from position `start`: the position they
      cover without gap, overlap or reordering, or none. */
  function Covered(out: seq<Out>, start: nat, sent: seq<Summary>): Option<nat> {
    if out == [] then Some(start)
    else
      match Covered(out[..|out| - 1], start, sent)
      case None => None
      case Some(pos) =>
        match out[|out| - 1]
        case Answer(_, _, _, _, n) => if pos <= n then Some(pos) else None
        case Event(p, row) => if p == pos < |sent| && row == sent[p] then Some(pos + 1) else None
        case Lagged(from, to) => if from == pos < to <= |sent| then Some(to) else None
  }

  /** Every lag notice covers only rows that had left the ring. */
  ghost predicate LagsOk(out: seq<Out>, sent: nat) {
    forall a :: a in out && a.Lagged? ==> a.to + BROADCAST_CAPACITY <= sent
  }

  ghost predicate EventsOk(sent: seq<Summary>, c: Client) {
    c.next <= |sent| && Covered(c.out, c.start, sent) == Some(c.next) && LagsOk(c.out, |sent|)
  }

  ghost predicate ClientOk(s: System, k: nat, c: Client) {
    RepliesOk(s, k, c) && PhaseOk(s.accepted, k, c) && RequestsOk(s.accepted, k, c) &&
    EventsOk(s.sent, c)
  }

  // ---- The queue and the mirror ----

  /** Requests are executed in the order they were accepted, each at most once, and the rest wait. */
  ghost predicate QueueOk(s: System) {
    && |s.executed| <= |s.accepted| && s.queue == s.accepted[|s.executed|..]
    && |s.queue| <= RESTORE_QUEUE_CAPACITY
    && (forall t :: 0 <= t < |s.executed| ==> s.executed[t].pending == s.accepted[t])
    && (forall t, u :: 0 <= t < u < |s.accepted| ==>
          s.accepted[t].client != s.accepted[u].client || s.accepted[t].line != s.accepted[u].line)
  }

  /** Rows are mirrored before they are broadcast. */
  ghost predicate MirrorOk(s: System) {
    && s.rows == Last(s.pushed, MAX_HISTORY)
    && |s.sent| <= |s.pushed| <= |s.sent| + 1 && s.sent == s.pushed[..|s.sent|]
  }

  ghost predicate SystemOk(s: System) {
    QueueOk(s) && MirrorOk(s) &&
    (forall k :: 0 <= k < |s.clients| ==> ClientOk(s, k, s.clients[k])) &&
    (forall p :: p in s.accepted ==> p.client < |s.clients|)
  }

  // ---- Nothing a client was told changes when the rest of the system moves on ----

  lemma {:induction false} CoveredGrows(out: seq<Out>, start: nat, sent: seq<Summary>, sent': seq<Summary>)
    requires sent <= sent'
    ensures Covered(out, start, sent).Some? ==> Covered(out, start, sent') == Covered(out, start, sent)
  {
    if out != [] {
      CoveredGrows(out[..|out| - 1], start, sent, sent');
    }
  }

  /** The logs only grow. */
  ghost predicate Grows(s: System, t: System) {
    s.accepted <= t.accepted && s.executed <= t.executed && s.sent <= t.sent && s.pushed <= t.pushed
  }

  lemma FitsGrows(s: System, t: System, k: nat, line: Line, a: Out)
    requires Grows(s, t) && a.Answer? && Fits(s, k, line, a)
    ensures Fits(t, k, line, a)
  {
    assert t.pushed[..a.mirrored] == s.pushed[..a.mirrored];
  }

  lemma RepliesGrow(s: System, t: System, k: nat, c: Client)
    requires Grows(s, t) && RepliesOk(s, k, c)
    ensures RepliesOk(t, k, c)
  {
    forall a | a in c.out && a.Answer? ensures 1 <= a.line <= Handled(c) && Fits(t, k, c.lines[a.line - 1], a) {
      FitsGrows(s, t, k, c.lines[a.line - 1], a);
    }
  }

  lemma ClientGrows(s: System, t: System, k: nat, c: Client)
    requires ClientOk(s, k, c) && Grows(s, t)
    requires forall p :: p in t.accepted && p !in s.accepted ==> p.client != k
    ensures ClientOk(t, k, c)
  {
    CoveredGrows(c.out, c.start, s.sent, t.sent);
    RepliesGrow(s, t, k, c);
  }

  // ---- One client step ----

  lemma AnsweredSnoc(out: seq<Out>, a: Out)
    ensures AnsweredLines(out + [a]) == AnsweredLines(out) + if a.Answer? then [a.line] else []
  {
    assert (out + [a])[..|out + [a]| - 1] == out;
  }

  lemma CoveredSnoc(out: seq<Out>, a: Out, start: nat, sent: seq<Summary>)
    requires Covered(out, start, sent).Some?
    ensures var pos := Covered(out, start, sent).value;
            Covered(out + [a], start, sent) ==
            match a
            case Answer(_, _, _, _, n) => if pos <= n then Some(pos) else None
            case Event(p, row) => if p == pos < |sent| && row == sent[p] then Some(pos + 1) else None
            case Lagged(from, to) => if from == pos < to <= |sent| then Some(to) else None
  {
    assert (out + [a])[..|out + [a]| - 1] == out;
  }

  /** Everything before the last line is answered; the last line is being handled. */
  ghost predicate Answering(s: System, k: nat, c: Client) {
    && c.lines != []
    && Ascending(AnsweredLines(c.out), |c.lines| - 1) && (c.intact ==> |AnsweredLines(c.out)| == |c.lines| - 1)
    && (forall a :: a in c.out && a.Answer? ==>
          1 <= a.line <= |c.lines| - 1 && Fits(s, k, c.lines[a.line - 1], a))
    && (forall p :: p in s.accepted && p.client == k ==> p.line <= |c.lines|)
    && EventsOk(s.sent, c)
  }

  lemma AscendingSnoc(lines: seq<nat>, n: nat)
    requires Ascending(lines, n)
    ensures Ascending(lines + [n + 1], n + 1)
  {
  }

  /** Answering the last line. */
  lemma SendKeeps(s: System, k: nat, c: Client, resp: Response, id: string, ticket: Option<nat>, ok: bool)
    requires Answering(s, k, c) && MirrorOk(s)
    requires Fits(s, k, c.lines[|c.lines| - 1], Answer(|c.lines|, id, resp, ticket, |s.pushed|))
    ensures ClientOk(s, k, Send(c, resp, id, ticket, |s.pushed|, ok))
  {
    var a := Answer(|c.lines|, id, resp, ticket, |s.pushed|);
    CoveredSnoc(c.out, a, c.start, s.sent);
    AnswerKeeps(s, k, c, a);
  }

  lemma AnswersFit(s: System, k: nat, lines: seq<Line>, out: seq<Out>, a: Out)
    requires lines != [] && a.Answer? && a.line == |lines| && Fits(s, k, lines[|lines| - 1], a)
    requires forall x :: x in out && x.Answer? ==> 1 <= x.line <= |lines| - 1 && Fits(s, k, lines[x.line - 1], x)
    ensures forall x :: x in out + [a] && x.Answer? ==> 1 <= x.line <= |lines| && Fits(s, k, lines[x.line - 1], x)
  {
    forall x | x in out + [a] && x.Answer? ensures 1 <= x.line <= |lines| && Fits(s, k, lines[x.line - 1], x) {
      if x !in out {
        assert x == a;
      }
    }
  }

  lemma AnswersCounted(out: seq<Out>, a: Out, n: nat)
    requires a.Answer? && a.line == n + 1 && Ascending(AnsweredLines(out), n)
    ensures Ascending(AnsweredLines(out + [a]), n + 1)
    ensures |AnsweredLines(out + [a])| == |AnsweredLines(out)| + 1
  {
    AnsweredSnoc(out, a);
    AscendingSnoc(AnsweredLines(out), n);
  }

  lemma AnswerKeeps(s: System, k: nat, c: Client, a: Out)
    requires Answering(s, k, c) && a.Answer? && a.line == |c.lines|
    requires Fits(s, k, c.lines[|c.lines| - 1], a)
    ensures RepliesOk(s, k, c.(phase := Idle, out := c.out + [a]))
  {
    AnswersCounted(c.out, a, |c.lines| - 1);
    AnswersFit(s, k, c.lines, c.out, a);
  }

  lemma HeardLine(s: System, k: nat, c: Client, line: Line)
    requires ClientOk(s, k, c) && c.phase.Idle?
    ensures Answering(s, k, c.(lines := c.lines + [line]))
  {
    assert forall i :: 0 <= i < |c.lines| ==> (c.lines + [line])[i] == c.lines[i];
  }

  lemma ListKeeps(
    s: System, k: nat, c: Client, id: string, offset: nat, limit: nat, poisoned: bool, ok: bool)
    requires Answering(s, k, c) && MirrorOk(s)
    requires var line := c.lines[|c.lines| - 1];
             line.bytes <= MAX_LINE_BYTES && line.parsed == Good(id, List(offset, limit))
    ensures var (total, page) := Page(s.rows, offset, limit);
            var resp := if poisoned then Error("history unavailable") else Entries(total, page);
            ClientOk(s, k, Send(c, resp, id, None, |s.pushed|, ok))
  {
    var (total, page) := Page(s.rows, offset, limit);
    assert s.pushed[..|s.pushed|] == s.pushed;
    SendKeeps(s, k, c, if poisoned then Error("history unavailable") else Entries(total, page), id, None, ok);
  }

  lemma HearKeeps(s: System, k: nat, c: Client, line: Line, poisoned: bool, ok: bool)
    requires ClientOk(s, k, c) && c.phase.Idle? && MirrorOk(s)
    ensures ClientOk(s, k, Hear(c, s.rows, |s.pushed|, line, poisoned, ok))
  {
    var c1 := c.(lines := c.lines + [line]);
    HeardLine(s, k, c, line);
    if line.bytes > MAX_LINE_BYTES {
      SendKeeps(s, k, c1, Error("line too long"), "", None, ok);
    } else {
      match line.parsed
      case Bad(id) => SendKeeps(s, k, c1, Error("invalid request"), id, None, ok);
      case Good(id, req) => RequestKeeps(s, k, c, id, req, line, poisoned, ok);
    }
  }

  lemma RestoreKeeps(s: System, k: nat, c: Client, id: string, entryId: nat)
    requires Answering(s, k, c) && c.phase.Idle? && Asks(c.lines[|c.lines| - 1], id, entryId)
    requires RequestsOk(s.accepted, k, c.(lines := c.lines[..|c.lines| - 1]))
    ensures ClientOk(s, k, c.(phase := Sending(id, entryId)))
  {
  }

  lemma HeardBefore(c: Client, line: Line)
    ensures var c1 := c.(lines := c.lines + [line]);
            c1.lines[|c1.lines| - 1] == line && c1.(lines := c1.lines[..|c1.lines| - 1]) == c
  {
    assert (c.lines + [line])[..|c.lines|] == c.lines;
  }

  lemma RequestKeeps(
    s: System, k: nat, c: Client, id: string, req: UiRequest, line: Line, poisoned: bool, ok: bool)
    requires ClientOk(s, k, c) && c.phase.Idle? && MirrorOk(s)
    requires line.bytes <= MAX_LINE_BYTES && line.parsed == Good(id, req)
    ensures ClientOk(s, k, Hear(c, s.rows, |s.pushed|, line, poisoned, ok))
  {
    var c1 := c.(lines := c.lines + [line]);
    HeardLine(s, k, c, line);
    HeardBefore(c, line);
    match req
    case List(offset, limit) => ListKeeps(s, k, c1, id, offset, limit, poisoned, ok);
    case Ping => SendKeeps(s, k, c1, Pong, id, None, ok);
    case Subscribe => SendKeeps(s, k, c1.(subscribed := true), Subscribed, id, None, ok);
    case Restore(entryId) => RestoreKeeps(s, k, c1, id, entryId);
  }

  lemma LagsSnoc(out: seq<Out>, a: Out, sent: nat)
    requires LagsOk(out, sent) && (a.Lagged? ==> a.to + BROADCAST_CAPACITY <= sent)
    ensures LagsOk(out + [a], sent)
  {
    forall x | x in out + [a] && x.Lagged? ensures x.to + BROADCAST_CAPACITY <= sent {
      assert x in out || x == a;
    }
  }

  /** One more notice moves the position on, if it continues where the client is. */
  lemma NoticeMoves(sent: seq<Summary>, out: seq<Out>, start: nat, pos: nat, a: Out, next: nat)
    requires Covered(out, start, sent) == Some(pos) && LagsOk(out, |sent|)
    requires || (a.Lagged? && a.from == pos < a.to == next && a.to + BROADCAST_CAPACITY <= |sent|)
             || (a.Event? && a.pos == pos < |sent| && a.row == sent[pos] && next == pos + 1)
    ensures Covered(out + [a], start, sent) == Some(next) && LagsOk(out + [a], |sent|)
  {
    CoveredSnoc(out, a, start, sent);
    LagsSnoc(out, a, |sent|);
  }

  lemma ReceiveEvents(sent: seq<Summary>, c: Client, ok: bool)
    requires EventsOk(sent, c) && c.next < |sent|
    ensures EventsOk(sent, Receive(c, sent, ok))
  {
    if ok {
      if c.next < Oldest(sent) {
        NoticeMoves(sent, c.out, c.start, c.next, Lagged(c.next, Oldest(sent)), Oldest(sent));
      } else {
        NoticeMoves(sent, c.out, c.start, c.next, Event(c.next, sent[c.next]), c.next + 1);
      }
    }
  }

  lemma ReceiveReplies(s: System, k: nat, c: Client, ok: bool)
    requires RepliesOk(s, k, c) && c.next < |s.sent|
    ensures RepliesOk(s, k, Receive(c, s.sent, ok))
  {
    var a := if c.next < Oldest(s.sent) then Lagged(c.next, Oldest(s.sent)) else Event(c.next, s.sent[c.next]);
    NoticeKeeps(s, k, c, a, Receive(c, s.sent, ok));
  }

  lemma ReceiveKeeps(s: System, k: nat, c: Client, ok: bool)
    requires ClientOk(s, k, c) && c.next < |s.sent| && c.phase.Idle?
    ensures ClientOk(s, k, Receive(c, s.sent, ok))
  {
    ReceiveEvents(s.sent, c, ok);
    ReceiveReplies(s, k, c, ok);
  }

  lemma NoticeKeeps(s: System, k: nat, c: Client, a: Out, d: Client)
    requires RepliesOk(s, k, c) && !a.Answer?
    requires d.lines == c.lines && d.phase == c.phase && (d.intact ==> c.intact)
    requires d.out == c.out || d.out == c.out + [a]
    ensures RepliesOk(s, k, d)
  {
    AnsweredSnoc(c.out, a);
  }

  // ---- Every step of the system ----

  lemma WaitingAnswer(s: System, k: nat, c: Client)
    requires ClientOk(s, k, c) && !c.phase.Idle?
    ensures Answering(s, k, c)
  {
  }

  /** Answering a restore from its ticket. */
  lemma RestoreAnswered(s: System, k: nat, c: Client, resp: Response, ok: bool)
    requires ClientOk(s, k, c) && MirrorOk(s) && c.phase.Waiting?
    requires || resp == Error("restore timed out") || resp == Error("restore failed: wayland thread gone")
             || (c.phase.ticket < |s.executed| && resp == ResponseOf(s.executed[c.phase.ticket]))
    ensures ClientOk(s, k, Send(c, resp, c.phase.id, Some(c.phase.ticket), |s.pushed|, ok))
  {
    WaitingAnswer(s, k, c);
    SendKeeps(s, k, c, resp, c.phase.id, Some(c.phase.ticket), ok);
  }

  lemma HandOverFails(s: System, k: nat, c: Client, ok: bool)
    requires ClientOk(s, k, c) && MirrorOk(s) && c.phase.Sending?
    ensures ClientOk(s, k, Send(c, Error("daemon shutting down"), c.phase.id, None, |s.pushed|, ok))
  {
    WaitingAnswer(s, k, c);
    SendKeeps(s, k, c, Error("daemon shutting down"), c.phase.id, None, ok);
  }

  lemma DisconnectKeeps(s: System, k: nat, c: Client)
    requires ClientOk(s, k, c)
    ensures ClientOk(s, k, c.(alive := false))
  {
  }

  lemma ClientStepKeeps(s: System, k: nat, c: Client, step: Step)
    requires ClientOk(s, k, c) && MirrorOk(s) && CanStep(s, c, step) && !(step.Enqueue? && s.open)
    ensures ClientOk(s, k, ClientStep(s, c, step))
  {
    match step
    case Read(line, poisoned, ok) => HearKeeps(s, k, c, line, poisoned, ok);
    case Deliver(ok) => ReceiveKeeps(s, k, c, ok);
    case Disconnect => DisconnectKeeps(s, k, c);
    case Enqueue(ok) => HandOverFails(s, k, c, ok);
    case Resolve(ok) => RestoreAnswered(s, k, c, ResponseOf(s.executed[c.phase.ticket]), ok);
    case Timeout(ok) => RestoreAnswered(s, k, c, Error("restore timed out"), ok);
    case Gone(ok) => RestoreAnswered(s, k, c, Error("restore failed: wayland thread gone"), ok);
  }

  lemma AcceptedClient(s: System, t: System, k: nat, c: Client)
    requires ClientOk(s, k, c) && c.phase.Sending? && Grows(s, t)
    requires t.accepted == s.accepted + [Pending(k, |c.lines|, c.phase.entryId)]
    ensures ClientOk(t, k, c.(phase := Waiting(c.phase.id, |s.accepted|)))
  {
    CoveredGrows(c.out, c.start, s.sent, t.sent);
    RepliesGrow(s, t, k, c);
  }

  lemma QueueAccepts(s: System, t: System, p: Pending)
    requires QueueOk(s) && |s.queue| < RESTORE_QUEUE_CAPACITY
    requires forall q :: q in s.accepted ==> q.client != p.client || q.line != p.line
    requires t.accepted == s.accepted + [p] && t.queue == s.queue + [p] && t.executed == s.executed
    ensures QueueOk(t)
  {
    assert forall u :: 0 <= u < |s.accepted| ==> s.accepted[u] in s.accepted;
  }

  lemma AcceptKeeps(s: System, k: nat, step: Step)
    requires SystemOk(s) && Enabled(s, Act(k, step)) && step.Enqueue? && s.open
    ensures SystemOk(Next(s, Act(k, step)))
  {
    var c, t := s.clients[k], Next(s, Act(k, step));
    var p := Pending(k, |c.lines|, c.phase.entryId);
    assert forall q :: q in t.accepted <==> q in s.accepted || q == p;
    QueueAccepts(s, t, p);
    AcceptedClient(s, t, k, c);
    forall j | 0 <= j < |t.clients| && j != k ensures ClientOk(t, j, t.clients[j]) {
      ClientGrows(s, t, j, s.clients[j]);
    }
  }

  lemma OthersGrow(s: System, t: System)
    requires SystemOk(s) && t.clients == s.clients && t.accepted == s.accepted
    requires Grows(s, t)
    ensures forall k :: 0 <= k < |t.clients| ==> ClientOk(t, k, t.clients[k])
  {
    forall k | 0 <= k < |t.clients| ensures ClientOk(t, k, t.clients[k]) {
      ClientGrows(s, t, k, s.clients[k]);
    }
  }

  /** Every step of every client and of the Wayland thread keeps all guarantees. */
  lemma NextKeeps(s: System, a: Action)
    requires SystemOk(s)
    ensures SystemOk(Next(s, a))
  {
    var t := Next(s, a);
    if Enabled(s, a) {
      match a
      case Connect => ConnectKeeps(s);
      case Act(k, step) =>
        if step.Enqueue? && s.open {
          AcceptKeeps(s, k, step);
        } else {
          ActKeeps(s, k, step);
        }
      case Execute(failure) => ExecuteKeeps(s, failure);
      case Mirror(row) =>
        LastAppend(s.pushed, [row], MAX_HISTORY);
        OthersGrow(s, t);
      case Broadcast => OthersGrow(s, t);
      case Shutdown => OthersGrow(s, t);
    }
  }

  lemma ConnectKeeps(s: System)
    requires SystemOk(s)
    ensures SystemOk(Next(s, Connect))
  {
    var t := Next(s, Connect);
    forall k | 0 <= k < |t.clients| ensures ClientOk(t, k, t.clients[k]) {
      if k < |s.clients| {
        ClientGrows(s, t, k, s.clients[k]);
      }
    }
  }

  lemma ActKeeps(s: System, k: nat, step: Step)
    requires SystemOk(s) && Enabled(s, Act(k, step)) && !(step.Enqueue? && s.open)
    ensures SystemOk(Next(s, Act(k, step)))
  {
    var t := Next(s, Act(k, step));
    ClientStepKeeps(s, k, s.clients[k], step);
    forall j | 0 <= j < |t.clients| ensures ClientOk(t, j, t.clients[j]) {
      ClientGrows(s, t, j, t.clients[j]);
    }
  }

  lemma ExecuteKeeps(s: System, failure: Option<string>)
    requires SystemOk(s) && Enabled(s, Execute(failure))
    ensures SystemOk(Next(s, Execute(failure)))
  {
    OthersGrow(s, Next(s, Execute(failure)));
  }

  /** The guarantees hold after every interleaving. */
  lemma {:induction false} RunKeeps(actions: seq<Action>)
    ensures SystemOk(RunServer(actions))
  {
    if actions != [] {
      RunKeeps(actions[..|actions| - 1]);
      NextKeeps(RunServer(actions[..|actions| - 1]), actions[|actions| - 1]);
    }
  }

  // ---- What a client can rely on ----

  lemma {:induction false} AscendingIsAll(lines: seq<nat>, n: nat)
    requires Ascending(lines, n) && |lines| == n
    ensures forall i :: 0 <= i < n ==> lines[i] == i + 1
  {
    if n > 0 {
      var front := lines[..n - 1];
      AscendingAtLeast(lines, n, n - 1);
      assert Ascending(front, n - 1);
      AscendingIsAll(front, n - 1);
    }
  }

  lemma {:induction false} AscendingAtLeast(lines: seq<nat>, n: nat, i: nat)
    requires Ascending(lines, n) && i < |lines|
    ensures lines[i] >= i + 1
  {
    if i > 0 {
      AscendingAtLeast(lines, n, i - 1);
    }
  }

  /** While no write failed, the lines whose handling is over have exactly one answer each, in order. */
  lemma OneAnswerPerLine(actions: seq<Action>, k: nat)
    requires k < |RunServer(actions).clients| && RunServer(actions).clients[k].intact
    ensures var c := RunServer(actions).clients[k];
            && |AnsweredLines(c.out)| == Handled(c)
            && forall i :: 0 <= i < Handled(c) ==> AnsweredLines(c.out)[i] == i + 1
  {
    RunKeeps(actions);
    var c := RunServer(actions).clients[k];
    AscendingIsAll(AnsweredLines(c.out), Handled(c));
  }

  /** The answer reports the success of executing the request of the answer's own line. */
  ghost predicate ReportsSuccess(s: System, k: nat, lines: seq<Line>, a: Out)
    requires a.Answer? && a.resp.Restored?
  {
    && 1 <= a.line <= |lines| && Asks(lines[a.line - 1], a.id, a.resp.entryId)
    && a.ticket.Some? && a.ticket.value < |s.executed|
    && s.executed[a.ticket.value] == Executed(Pending(k, a.line, a.resp.entryId), None)
  }

  lemma RestoredReports(s: System, k: nat, c: Client, a: Out)
    requires QueueOk(s) && RepliesOk(s, k, c) && a in c.out && a.Answer? && a.resp.Restored?
    ensures ReportsSuccess(s, k, c.lines, a)
  {
    assert Fits(s, k, c.lines[a.line - 1], a);
  }

  /** A client is told `Restored` only for a line that asked for that entry, and only if executing the
      request of that very line succeeded; a late result is never the answer to another line. */
  lemma RestoredMeansExecuted(actions: seq<Action>, k: nat, a: Out)
    requires k < |RunServer(actions).clients|
    requires a in RunServer(actions).clients[k].out && a.Answer? && a.resp.Restored?
    ensures ReportsSuccess(RunServer(actions), k, RunServer(actions).clients[k].lines, a)
  {
    RunKeeps(actions);
    RestoredReports(RunServer(actions), k, RunServer(actions).clients[k], a);
  }

  /** The requests executed so far are the first ones accepted, in order, and no line's request is
      executed twice. */
  lemma ExecutedInOrder(actions: seq<Action>, t: nat, u: nat)
    requires t < u < |RunServer(actions).executed|
    ensures var s := RunServer(actions);
            && u < |s.accepted|
            && s.executed[t].pending == s.accepted[t] && s.executed[u].pending == s.accepted[u]
            && (s.executed[t].pending.client != s.executed[u].pending.client ||
                s.executed[t].pending.line != s.executed[u].pending.line)
  {
    RunKeeps(actions);
  }

  /** How many of the items tell the client about position `p`. */
  function Tellings(out: seq<Out>, p: nat): nat {
    if out == [] then 0
    else
      Tellings(out[..|out| - 1], p) +
      match out[|out| - 1]
      case Answer(_, _, _, _, _) => 0
      case Event(q, _) => if q == p then 1 else 0
      case Lagged(from, to) => if from <= p < to then 1 else 0
  }

  lemma {:induction false} CoveredTellsOnce(out: seq<Out>, start: nat, sent: seq<Summary>, p: nat)
    requires Covered(out, start, sent).Some?
    ensures start <= Covered(out, start, sent).value
    ensures Tellings(out, p) == if start <= p < Covered(out, start, sent).value then 1 else 0
    ensures forall q: nat, row :: Event(q, row) in out ==> q < |sent| && row == sent[q]
  {
    if out != [] {
      var front, a := out[..|out| - 1], out[|out| - 1];
      assert Covered(front, start, sent).Some?;
      CoveredTellsOnce(front, start, sent, p);
      assert forall x :: x in out <==> x in front || x == a;
    }
  }

  /** No silent gap: of the rows broadcast since the client connected, each one it has gone past was
      sent to it exactly once, or is covered by exactly one lag notice; the rest is still to come. */
  lemma NoSilentGap(actions: seq<Action>, k: nat, p: nat)
    requires k < |RunServer(actions).clients|
    ensures var s := RunServer(actions);
            var c := s.clients[k];
            && c.start <= c.next <= |s.sent|
            && Tellings(c.out, p) == (if c.start <= p < c.next then 1 else 0)
            && (forall q: nat, row :: Event(q, row) in c.out ==> q < |s.sent| && row == s.sent[q])
  {
    RunKeeps(actions);
    var s := RunServer(actions);
    CoveredTellsOnce(s.clients[k].out, s.clients[k].start, s.sent, p);
  }

  /** A lag notice never skips a row that the ring still held. */
  lemma LagsAreReal(actions: seq<Action>, k: nat, a: Out)
    requires k < |RunServer(actions).clients| && a in RunServer(actions).clients[k].out && a.Lagged?
    ensures a.from < a.to && a.to + BROADCAST_CAPACITY <= |RunServer(actions).sent|
  {
    RunKeeps(actions);
    var c := RunServer(actions).clients[k];
    LagsSkip(c.out, c.start, RunServer(actions).sent, a);
  }

  lemma {:induction false} LagsSkip(out: seq<Out>, start: nat, sent: seq<Summary>, a: Out)
    requires Covered(out, start, sent).Some? && a in out && a.Lagged?
    ensures a.from < a.to
  {
    var front := out[..|out| - 1];
    assert Covered(front, start, sent).Some?;
    if a in front {
      LagsSkip(front, start, sent, a);
    }
  }

  lemma {:induction false} CoveredPrefix(out: seq<Out>, i: nat, start: nat, sent: seq<Summary>)
    requires i <= |out| && Covered(out, start, sent).Some?
    ensures Covered(out[..i], start, sent).Some?
    ensures Covered(out[..i], start, sent).value <= Covered(out, start, sent).value
  {
    if i < |out| {
      CoveredPrefix(out[..|out| - 1], i, start, sent);
      assert out[..|out| - 1][..i] == out[..i];
    } else {
      assert out[..i] == out;
    }
  }

  /** A lag notice only skips rows that were mirrored before any later answer was given. */
  lemma LagBeforeAnswer(out: seq<Out>, j: nat, i: nat, start: nat, sent: seq<Summary>)
    requires j < i < |out| && out[j].Lagged? && out[i].Answer? && Covered(out, start, sent).Some?
    ensures out[j].to <= out[i].mirrored && out[j].to <= |sent|
  {
    CoveredPrefix(out, i + 1, start, sent);
    CoveredPrefix(out, i, start, sent);
    assert out[..i + 1][..i] == out[..i] && out[..i][..j + 1] == out[..j + 1] && out[..j + 1][..j] == out[..j];
    CoveredPrefix(out[..i], j + 1, start, sent);
  }

  lemma PageReaches(pushed: seq<Summary>, n: nat, p: nat, offset: nat, limit: nat)
    requires p < n <= |pushed| && n <= p + MAX_HISTORY
    ensures var (total, page) := Page(SnapshotAt(pushed, n), offset, limit);
            var at := p - (n - total);
            && 0 <= at < total
            && (offset <= at < offset + ClampLimit(limit) ==> at - offset < |page| && page[at - offset] == pushed[p])
  {
  }

  /** The snapshot row of position `p` is in the answered page, if the page reaches its index. */
  ghost predicate AnswerHolds(s: System, a: Out, p: nat, offset: nat, limit: nat)
    requires a.Answer? && a.resp.Entries?
  {
    var at := p - (a.mirrored - a.resp.total);
    && 0 <= at < a.resp.total && p < |s.sent|
    && (offset <= at < offset + ClampLimit(limit) ==>
          at - offset < |a.resp.rows| && a.resp.rows[at - offset] == s.sent[p])
  }

  /** At `j` the client was told of a gap that skips `p`; at `i`, later, it got the answer to a `List`. */
  ghost predicate GapThenList(c: Client, j: nat, i: nat, p: nat, offset: nat, limit: nat) {
    && j < i < |c.out| && c.out[j].Lagged? && c.out[j].from <= p < c.out[j].to
    && c.out[i].Answer? && c.out[i].resp.Entries?
    && 1 <= c.out[i].line <= |c.lines|
    && c.lines[c.out[i].line - 1].parsed.Good? && c.lines[c.out[i].line - 1].parsed.req == List(offset, limit)
  }

  lemma ListAnswerHolds(s: System, k: nat, line: Line, a: Out, p: nat, offset: nat, limit: nat)
    requires a.Answer? && a.resp.Entries? && Fits(s, k, line, a) && MirrorOk(s)
    requires line.parsed.Good? && line.parsed.req == List(offset, limit)
    requires p < a.mirrored <= p + MAX_HISTORY && p < |s.sent|
    ensures AnswerHolds(s, a, p, offset, limit)
  {
    PageReaches(s.pushed, a.mirrored, p, offset, limit);
  }

  lemma GapCovered(s: System, k: nat, c: Client, j: nat, i: nat, p: nat, offset: nat, limit: nat)
    requires ClientOk(s, k, c) && MirrorOk(s) && GapThenList(c, j, i, p, offset, limit)
    requires c.out[i].mirrored <= p + MAX_HISTORY
    ensures AnswerHolds(s, c.out[i], p, offset, limit)
  {
    var a := c.out[i];
    LagBeforeAnswer(c.out, j, i, c.start, s.sent);
    assert a in c.out;
    ListAnswerHolds(s, k, c.lines[a.line - 1], a, p, offset, limit);
  }

  /** Re-listing repairs a gap: a row that a lag notice skipped, and that is still among the last
      `MAX_HISTORY` rows when a later `List` of that client is answered, is in the answer if the page
      reaches its index. */
  lemma ListCoversGap(actions: seq<Action>, k: nat, j: nat, i: nat, p: nat, offset: nat, limit: nat)
    requires k < |RunServer(actions).clients|
    requires GapThenList(RunServer(actions).clients[k], j, i, p, offset, limit)
    requires RunServer(actions).clients[k].out[i].mirrored <= p + MAX_HISTORY
    ensures AnswerHolds(RunServer(actions), RunServer(actions).clients[k].out[i], p, offset, limit)
  {
    RunKeeps(actions);
    GapCovered(RunServer(actions), k, RunServer(actions).clients[k], j, i, p, offset, limit);
  }
}
