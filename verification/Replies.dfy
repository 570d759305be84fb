/** What each step of a client task sends to its client, in every state, and which steps send which
    error. The steps are described by what the client finds on the wire. */
module Replies {
  import opened Config
  import opened Seqs
  import opened Snapshots
  import opened Servers

  /** The client is connected and its task is in `select!`. */
  predicate Listening(s: System, k: nat) {
    k < |s.clients| && s.clients[k].alive && s.clients[k].phase.Idle?
  }

  /** After the step the client has been sent one more item and is listening again. */
  ghost predicate Told(c: Client, d: Client, a: Out) {
    d.out == c.out + [a] && d.alive == c.alive && d.phase == Idle && d.start == c.start && d.intact == c.intact
  }

  /** The line was answered, under the given id. */
  ghost predicate Answered(c: Client, d: Client, line: Line, id: string, resp: Response) {
    && d.lines == c.lines + [line] && d.next == c.next
    && exists a: Out ::
         Told(c, d, a) && a.Answer? && a.line == |d.lines| && a.id == id && a.resp == resp && a.ticket == None
  }

  /** Only this client has changed, and nothing else. */
  ghost predicate OnlyClient(s: System, t: System, k: nat) {
    && t == s.(clients := t.clients) && |t.clients| == |s.clients|
    && forall j :: 0 <= j < |s.clients| && j != k ==> t.clients[j] == s.clients[j]
  }

  predicate Request(line: Line, id: string, req: UiRequest) {
    line.bytes <= MAX_LINE_BYTES && line.parsed == Good(id, req)
  }

  /** A new client starts at the end of what was broadcast so far, listening, not subscribed. */
  lemma ConnectsNow(s: System)
    ensures var t := Next(s, Connect);
            && t == s.(clients := t.clients) && |t.clients| == |s.clients| + 1 && t.clients[..|s.clients|] == s.clients
            && Listening(t, |s.clients|)
            && var c := t.clients[|s.clients|];
               c.start == c.next == |s.sent| && !c.subscribed && c.intact && c.lines == [] && c.out == []
  {
  }

  // ---- Lines ----

  /** A `List` is answered with the total and the rows from the offset on: as many as were asked for, as a
      page may hold, or as there are, whichever is least. Only a poisoned lock makes it an error. */
  lemma ListAnswered(s: System, k: nat, line: Line, poisoned: bool, id: string, offset: nat, limit: nat)
    returns (resp: Response)
    requires Listening(s, k) && Request(line, id, List(offset, limit))
    ensures var t := Next(s, Act(k, Read(line, poisoned, true)));
            OnlyClient(s, t, k) && Answered(s.clients[k], t.clients[k], line, id, resp)
    ensures if poisoned then resp == Error("history unavailable")
            else
              && resp.Entries? && resp.total == |s.rows|
              && IsLeast(|resp.rows|, limit, MAX_LIST_LIMIT, if offset < |s.rows| then |s.rows| - offset else 0)
              && forall i :: 0 <= i < |resp.rows| ==> resp.rows[i] == s.rows[offset + i]
  {
    var (total, page) := Page(s.rows, offset, limit);
    resp := if poisoned then Error("history unavailable") else Entries(total, page);
    var c := s.clients[k];
    assert Told(c, Next(s, Act(k, Read(line, poisoned, true))).clients[k],
                Answer(|c.lines| + 1, id, resp, None, |s.pushed|));
  }

  lemma PingAnswered(s: System, k: nat, line: Line, poisoned: bool, id: string)
    requires Listening(s, k) && Request(line, id, Ping)
    ensures var t := Next(s, Act(k, Read(line, poisoned, true)));
            OnlyClient(s, t, k) && Answered(s.clients[k], t.clients[k], line, id, Pong)
  {
    var c := s.clients[k];
    assert Told(c, Next(s, Act(k, Read(line, poisoned, true))).clients[k],
                Answer(|c.lines| + 1, id, Pong, None, |s.pushed|));
  }

  /** A `Subscribe` is answered, and makes the client a subscriber. */
  lemma SubscribeAnswered(s: System, k: nat, line: Line, poisoned: bool, id: string)
    requires Listening(s, k) && Request(line, id, Subscribe)
    ensures var t := Next(s, Act(k, Read(line, poisoned, true)));
            && OnlyClient(s, t, k) && Answered(s.clients[k], t.clients[k], line, id, Subscribed)
            && t.clients[k].subscribed
  {
    var c := s.clients[k];
    assert Told(c, Next(s, Act(k, Read(line, poisoned, true))).clients[k],
                Answer(|c.lines| + 1, id, Subscribed, None, |s.pushed|));
  }

  lemma GarbageAnswered(s: System, k: nat, line: Line, poisoned: bool)
    requires Listening(s, k) && (line.bytes > MAX_LINE_BYTES || line.parsed.Bad?)
    ensures var t := Next(s, Act(k, Read(line, poisoned, true)));
            && OnlyClient(s, t, k)
            && if line.bytes > MAX_LINE_BYTES
               then Answered(s.clients[k], t.clients[k], line, "", Error("line too long"))
               else Answered(s.clients[k], t.clients[k], line, line.parsed.id, Error("invalid request"))
  {
    var c := s.clients[k];
    var a := if line.bytes > MAX_LINE_BYTES then Answer(|c.lines| + 1, "", Error("line too long"), None, |s.pushed|)
             else Answer(|c.lines| + 1, line.parsed.id, Error("invalid request"), None, |s.pushed|);
    assert Told(c, Next(s, Act(k, Read(line, poisoned, true))).clients[k], a);
  }

  /** A `Restore` is not answered yet: the task goes on to hand it over. */
  lemma RestoreTaken(s: System, k: nat, line: Line, poisoned: bool, ok: bool, id: string, entryId: nat)
    requires Listening(s, k) && Request(line, id, UiRequest.Restore(entryId))
    ensures var t := Next(s, Act(k, Read(line, poisoned, ok)));
            && OnlyClient(s, t, k)
            && t.clients[k] == s.clients[k].(lines := s.clients[k].lines + [line], phase := Sending(id, entryId))
  {
  }

  /** A failed write ends the connection, except after an overlong line. */
  lemma WriteFails(s: System, k: nat, line: Line, poisoned: bool)
    requires Listening(s, k) && !(line.bytes <= MAX_LINE_BYTES && line.parsed.Good? && line.parsed.req.Restore?)
    ensures var t := Next(s, Act(k, Read(line, poisoned, false)));
            && OnlyClient(s, t, k) && t.clients[k].out == s.clients[k].out && !t.clients[k].intact
            && (t.clients[k].alive <==> line.bytes > MAX_LINE_BYTES)
  {
  }

  /** Only listening clients read lines. */
  lemma NotListening(s: System, k: nat, line: Line, poisoned: bool, ok: bool)
    requires !Listening(s, k)
    ensures Next(s, Act(k, Read(line, poisoned, ok))) == s
  {
  }

  // ---- Restores ----

  /** The request enters the queue while the thread runs and the queue has room; it waits while there is
      none; and is refused once the thread is gone. */
  lemma RestoreHandedOver(s: System, k: nat)
    requires k < |s.clients| && s.clients[k].alive && s.clients[k].phase.Sending?
    ensures var c, t := s.clients[k], Next(s, Act(k, Enqueue(true)));
            if s.open && |s.queue| >= RESTORE_QUEUE_CAPACITY then t == s
            else if s.open then
              var p := Pending(k, |c.lines|, c.phase.entryId);
              && t == s.(clients := s.clients[k := c.(phase := Waiting(c.phase.id, |s.accepted|))],
                         queue := s.queue + [p], accepted := s.accepted + [p])
            else
              && OnlyClient(s, t, k)
              && exists a: Out ::
                   && Told(c, t.clients[k], a) && a.Answer? && a.line == |c.lines| && a.id == c.phase.id
                   && a.resp == Error("daemon shutting down")
  {
    var c, t := s.clients[k], Next(s, Act(k, Enqueue(true)));
    if !s.open {
      assert Told(c, t.clients[k], Answer(|c.lines|, c.phase.id, Error("daemon shutting down"), None, |s.pushed|));
    }
  }

  /** The waiting request was answered from its ticket. */
  ghost predicate AnsweredTicket(c: Client, d: Client, resp: Response)
    requires c.phase.Waiting?
  {
    exists a: Out ::
      && Told(c, d, a) && a.Answer? && a.line == |c.lines| && a.id == c.phase.id && a.resp == resp
      && a.ticket == Some(c.phase.ticket)
  }

  lemma SendTells(c: Client, resp: Response, mirrored: nat)
    requires c.phase.Waiting?
    ensures AnsweredTicket(c, Send(c, resp, c.phase.id, Some(c.phase.ticket), mirrored, true), resp)
  {
    assert Told(c, Send(c, resp, c.phase.id, Some(c.phase.ticket), mirrored, true),
                Answer(|c.lines|, c.phase.id, resp, Some(c.phase.ticket), mirrored));
  }

  /** When its request was executed, a waiting client gets exactly that result: `Restored` with the entry it
      asked for if and only if the execution did not fail, and otherwise the failure. */
  lemma ResultAnswered(s: System, k: nat)
    requires k < |s.clients| && s.clients[k].alive && s.clients[k].phase.Waiting?
    requires s.clients[k].phase.ticket < |s.executed|
    ensures var c, t := s.clients[k], Next(s, Act(k, Resolve(true)));
            var x := s.executed[c.phase.ticket];
            && OnlyClient(s, t, k)
            && AnsweredTicket(c, t.clients[k],
                              if x.failure == None then Restored(x.pending.entryId) else Error(x.failure.value))
  {
    var x := s.executed[s.clients[k].phase.ticket];
    SendTells(s.clients[k],
              if x.failure == None then Restored(x.pending.entryId) else Error(x.failure.value), |s.pushed|);
  }

  lemma TimeoutAnswered(s: System, k: nat)
    requires k < |s.clients| && s.clients[k].alive && s.clients[k].phase.Waiting?
    ensures var c, t := s.clients[k], Next(s, Act(k, Timeout(true)));
            OnlyClient(s, t, k) && AnsweredTicket(c, t.clients[k], Error("restore timed out"))
  {
    SendTells(s.clients[k], Error("restore timed out"), |s.pushed|);
  }

  /** The thread is gone for a waiting client when it stopped before it executed the request. */
  lemma GoneAnswered(s: System, k: nat)
    requires k < |s.clients| && s.clients[k].alive && s.clients[k].phase.Waiting?
    ensures var c, t := s.clients[k], Next(s, Act(k, Gone(true)));
            if !s.open && c.phase.ticket >= |s.executed|
            then OnlyClient(s, t, k) && AnsweredTicket(c, t.clients[k], Error("restore failed: wayland thread gone"))
            else t == s
  {
    SendTells(s.clients[k], Error("restore failed: wayland thread gone"), |s.pushed|);
  }

  // ---- Events ----

  /** A listening subscriber that is behind gets the next row if the ring still holds it, and otherwise a lag
      notice up to the oldest row the ring holds; a client that is not behind or did not subscribe gets none. */
  lemma RowDelivered(s: System, k: nat)
    requires Listening(s, k)
    ensures var c, t := s.clients[k], Next(s, Act(k, Deliver(true)));
            if !c.subscribed || c.next >= |s.sent| then t == s
            else
              && OnlyClient(s, t, k) && t.clients[k].lines == c.lines && t.clients[k].subscribed
              && if |s.sent| - c.next <= BROADCAST_CAPACITY
                 then Told(c, t.clients[k], Event(c.next, s.sent[c.next])) && t.clients[k].next == c.next + 1
                 else
                   var oldest := |s.sent| - BROADCAST_CAPACITY;
                   Told(c, t.clients[k], Lagged(c.next, oldest)) && t.clients[k].next == oldest
  {
  }

  // ---- Which steps send which error ----

  /** The steps that send a message of their own. */
  predicate Explains(step: Step, message: string) {
    && (message == "restore timed out" ==> step.Timeout?)
    && (message == "restore failed: wayland thread gone" ==> step.Gone?)
    && (message == "daemon shutting down" ==> step.Enqueue?)
    && (message == "history unavailable" ==>
          step.Read? && step.poisoned && step.line.parsed.Good? && step.line.parsed.req.List?)
  }

  lemma MessagesDiffer(message: string)
    ensures message == "line too long" || message == "invalid request" ==>
              message != "restore timed out" && message != "restore failed: wayland thread gone" &&
              message != "daemon shutting down" && message != "history unavailable"
    ensures message == "restore timed out" ==>
              message != "restore failed: wayland thread gone" && message != "daemon shutting down" &&
              message != "history unavailable"
    ensures message == "restore failed: wayland thread gone" ==>
              message != "daemon shutting down" && message != "history unavailable"
    ensures message == "daemon shutting down" ==> message != "history unavailable"
  {
    assert |"line too long"| == 13 && |"invalid request"| == 15 && |"restore timed out"| == 17;
    assert |"history unavailable"| == 19 && |"daemon shutting down"| == 20;
    assert |"restore failed: wayland thread gone"| == 35;
  }

  /** The step sends an error only with its own message, or with the failure of an executed request. */
  ghost predicate ErrorExplained(s: System, step: Step, a: Out) {
    a.Answer? && a.resp.Error? ==>
      Explains(step, a.resp.message) || exists x :: x in s.executed && x.failure == Some(a.resp.message)
  }

  predicate SubscribesBy(line: Line) {
    line.bytes <= MAX_LINE_BYTES && line.parsed.Good? && line.parsed.req.Subscribe?
  }

  /** The errors that reading a line is answered with. */
  ghost predicate ReadError(line: Line, poisoned: bool, message: string) {
    || message == "line too long" || message == "invalid request"
    || (poisoned && line.parsed.Good? && line.parsed.req.List? && message == "history unavailable")
  }

  /** What the client has been sent since, while hearing the line, is such an answer. */
  ghost predicate AddsAnswers(c: Client, d: Client, line: Line, poisoned: bool) {
    forall a :: a in d.out && a !in c.out ==>
      a.Answer? && (a.resp.Error? ==> ReadError(line, poisoned, a.resp.message))
  }

  lemma SendAdds(c: Client, line: Line, poisoned: bool, resp: Response, id: string, mirrored: nat, ok: bool)
    requires resp.Error? ==> ReadError(line, poisoned, resp.message)
    ensures var d := Send(c, resp, id, None, mirrored, ok);
            d.lines == c.lines && d.subscribed == c.subscribed && AddsAnswers(c, d, line, poisoned)
  {
  }

  /** What hearing a line adds. */
  lemma HearAdds(c0: Client, rows: seq<Summary>, mirrored: nat, line: Line, poisoned: bool, ok: bool)
    ensures var d := Hear(c0, rows, mirrored, line, poisoned, ok);
            && d.lines == c0.lines + [line] && (d.subscribed <==> c0.subscribed || SubscribesBy(line))
            && AddsAnswers(c0, d, line, poisoned)
  {
    var c := c0.(lines := c0.lines + [line]);
    if line.bytes > MAX_LINE_BYTES {
      SendAdds(c, line, poisoned, Error("line too long"), "", mirrored, ok);
    } else {
      match line.parsed
      case Bad(id) => SendAdds(c, line, poisoned, Error("invalid request"), id, mirrored, ok);
      case Good(id, req) =>
        match req
        case List(offset, limit) =>
          var (total, page) := Page(rows, offset, limit);
          var resp := if poisoned then Error("history unavailable") else Entries(total, page);
          SendAdds(c, line, poisoned, resp, id, mirrored, ok);
        case Restore(_) =>
        case Ping => SendAdds(c, line, poisoned, Pong, id, mirrored, ok);
        case Subscribe => SendAdds(c.(subscribed := true), line, poisoned, Subscribed, id, mirrored, ok);
    }
  }

  lemma ReadErrorExplained(line: Line, poisoned: bool, ok: bool, message: string)
    requires ReadError(line, poisoned, message)
    ensures Explains(Read(line, poisoned, ok), message)
  {
    MessagesDiffer(message);
  }

  lemma ReadExplained(s: System, c: Client, line: Line, poisoned: bool, ok: bool, a: Out)
    requires a in Hear(c, s.rows, |s.pushed|, line, poisoned, ok).out && a !in c.out
    ensures ErrorExplained(s, Read(line, poisoned, ok), a)
  {
    HearAdds(c, s.rows, |s.pushed|, line, poisoned, ok);
    if a.resp.Error? {
      ReadErrorExplained(line, poisoned, ok, a.resp.message);
    }
  }

  lemma StepExplained(s: System, c: Client, step: Step, a: Out)
    requires CanStep(s, c, step) && a in ClientStep(s, c, step).out && a !in c.out
    ensures ErrorExplained(s, step, a)
  {
    match step
    case Read(line, poisoned, ok) => ReadExplained(s, c, line, poisoned, ok, a);
    case Resolve(ok) =>
      assert s.executed[c.phase.ticket] in s.executed;
    case Enqueue(_) => MessagesDiffer("daemon shutting down");
    case Timeout(_) => MessagesDiffer("restore timed out");
    case Gone(_) => MessagesDiffer("restore failed: wayland thread gone");
    case Deliver(_) =>
    case Disconnect =>
  }

  /** Some step of client `k` along the run explains the message. */
  ghost predicate Explained(actions: seq<Action>, k: nat, message: string) {
    exists a :: a in actions && a.Act? && a.client == k && Explains(a.step, message)
  }

  lemma {:induction false} ExecutedGrows(actions: seq<Action>)
    requires actions != []
    ensures RunServer(actions[..|actions| - 1]).executed <= RunServer(actions).executed
    ensures |RunServer(actions[..|actions| - 1]).clients| <= |RunServer(actions).clients|
  {
  }

  lemma NewItem(actions: seq<Action>, k: nat, a: Out)
    requires actions != [] && k < |RunServer(actions).clients| && a in RunServer(actions).clients[k].out
    ensures var s, last := RunServer(actions[..|actions| - 1]), actions[|actions| - 1];
            || (k < |s.clients| && a in s.clients[k].out)
            || (k < |s.clients| && last.Act? && last.client == k && CanStep(s, s.clients[k], last.step) &&
                a in ClientStep(s, s.clients[k], last.step).out)
  {
    var s, last := RunServer(actions[..|actions| - 1]), actions[|actions| - 1];
    if k < |s.clients| {
      if last.Act? && last.client == k && Enabled(s, last) {
        ActMoves(s, last);
      } else {
        OthersStay(s, last, k);
      }
    }
  }

  /** In every interleaving: a client is told that its restore timed out only after a timeout of its task,
      that the thread is gone or the daemon shuts down only when it met that, that the history is
      unavailable only after it listed under a poisoned lock; unless it is the failure of an executed
      request that reads so. */
  lemma {:induction false} ErrorsExplained(actions: seq<Action>, k: nat, a: Out)
    requires k < |RunServer(actions).clients| && a in RunServer(actions).clients[k].out && a.Answer? && a.resp.Error?
    ensures Explained(actions, k, a.resp.message) ||
            exists x :: x in RunServer(actions).executed && x.failure == Some(a.resp.message)
  {
    var front, last := actions[..|actions| - 1], actions[|actions| - 1];
    var s := RunServer(front);
    NewItem(actions, k, a);
    ExecutedGrows(actions);
    if k < |s.clients| && a in s.clients[k].out {
      ErrorsExplained(front, k, a);
    } else {
      StepExplained(s, s.clients[k], last.step, a);
      assert last in actions;
    }
  }

  // ---- Subscribers ----

  /** The client subscribed with one of its lines. */
  ghost predicate HasSubscribed(lines: seq<Line>) {
    exists l :: l in lines && SubscribesBy(l)
  }

  ghost predicate SubscriptionOk(c: Client) {
    && (c.subscribed <==> HasSubscribed(c.lines))
    && (forall a :: a in c.out && !a.Answer? ==> c.subscribed)
  }

  lemma SubscribedByLine(lines: seq<Line>, line: Line)
    ensures HasSubscribed(lines + [line]) <==> HasSubscribed(lines) || SubscribesBy(line)
  {
    assert forall l :: l in lines + [line] <==> l in lines || l == line;
  }

  lemma HearSubscription(s: System, c: Client, line: Line, poisoned: bool, ok: bool)
    requires SubscriptionOk(c)
    ensures SubscriptionOk(Hear(c, s.rows, |s.pushed|, line, poisoned, ok))
  {
    SubscribedByLine(c.lines, line);
    HearAdds(c, s.rows, |s.pushed|, line, poisoned, ok);
  }

  lemma StepSubscription(s: System, c: Client, step: Step)
    requires SubscriptionOk(c) && CanStep(s, c, step)
    ensures SubscriptionOk(ClientStep(s, c, step))
  {
    if step.Read? {
      HearSubscription(s, c, step.line, step.poisoned, step.ok);
    }
  }

  /** In every interleaving a client is a subscriber exactly when one of its lines asked for it, and only
      subscribers are sent events and lag notices. */
  lemma {:induction false} OnlySubscribersHear(actions: seq<Action>, k: nat)
    requires k < |RunServer(actions).clients|
    ensures SubscriptionOk(RunServer(actions).clients[k])
  {
    var front, last := actions[..|actions| - 1], actions[|actions| - 1];
    var s := RunServer(front);
    if k < |s.clients| {
      OnlySubscribersHear(front, k);
      if last.Act? && last.client == k && Enabled(s, last) {
        ActMoves(s, last);
        StepSubscription(s, s.clients[k], last.step);
      } else {
        OthersStay(s, last, k);
      }
    }
  }
}
