/** From restore to echo, over whole runs from start-up: which restored entries come back unseen, and
    which come back as a new row. */
module RoundTrips {
  import opened Config
  import opened Seqs
  import opened Contents
  import opened Histories
  import opened Snapshots
  import opened Drains
  import opened Restores
  import opened Wire
  import opened AppStates
  import opened EventLoops
  import opened Mirrors
  import opened Echoes
  import opened Storage
  import opened Batches
  import opened Copies
  import opened Lifetimes
  import opened EchoRuns

  // ---- A run that ends with a restore ----

  /** In the last turn of the run the `j`-th request succeeds in restoring an entry with content `c`, and
      no later request of that turn succeeds. */
  ghost predicate EndsWithRestore(env: Env, inputs: seq<Input>, j: nat, q: Request, c: Content)
    requires forall i :: i in inputs ==> ValidInput(i)
  {
    && Succeeds(env, inputs, j, q)
    && var u := BeforeServing(env, inputs, j);
       && Find(u.app.history.entries, q.entryId).Some?
       && Find(u.app.history.entries, q.entryId).value.content == c
       && RunLoop(env, BOOT, inputs).restored == Serve(env, u, q).0.restored
  }

  /** The flag that restore arms. */
  function ArmedBy(env: Env, inputs: seq<Input>, j: nat, c: Content): Armed
    requires forall i :: i in inputs ==> ValidInput(i)
    requires inputs != [] && j < |inputs[|inputs| - 1].requests|
  {
    Armed(env.clock(BeforeServing(env, inputs, j).tick), Preview(c))
  }

  /** The flag is as it was unless another restore succeeded. */
  ghost predicate NotRearmed(s: Loop, t: Loop) {
    s.restored <= t.restored && (t.restored == s.restored ==> t.echo == s.echo)
  }

  lemma ServeRearms(env: Env, s: Loop, t: Loop, q: Request)
    requires ValidOracle(q.oracle) && NotRearmed(s, t)
    ensures NotRearmed(s, Serve(env, t, q).0)
  {
  }

  lemma {:induction false} LaterFail(env: Env, x: Loop, requests: seq<Request>, j: nat)
    requires j <= |requests| && forall r :: r in requests ==> ValidOracle(r.oracle)
    ensures NotRearmed(ServeAll(env, x, requests[..j]), ServeAll(env, x, requests))
  {
    if j == |requests| {
      assert requests[..j] == requests;
    } else {
      var n := |requests| - 1;
      LaterFail(env, x, requests[..n], j);
      assert requests[..n][..j] == requests[..j];
      ServeRearms(env, ServeAll(env, x, requests[..j]), ServeAll(env, x, requests[..n]), requests[n]);
    }
  }

  lemma ServeAllNext(env: Env, x: Loop, requests: seq<Request>, j: nat)
    requires j < |requests| && forall r :: r in requests ==> ValidOracle(r.oracle)
    ensures ServeAll(env, x, requests[..j + 1]) == Serve(env, ServeAll(env, x, requests[..j]), requests[j]).0
  {
    assert requests[..j + 1][..j] == requests[..j];
  }

  lemma ArmsLast(env: Env, x: Loop, requests: seq<Request>, j: nat)
    requires j < |requests| && forall r :: r in requests ==> ValidOracle(r.oracle)
    requires ServeAll(env, x, requests).restored == ServeAll(env, x, requests[..j + 1]).restored
    ensures ServeAll(env, x, requests).echo == Serve(env, ServeAll(env, x, requests[..j]), requests[j]).0.echo
  {
    LaterFail(env, x, requests, j + 1);
    ServeAllNext(env, x, requests, j);
  }

  lemma RestoreArms(env: Env, inputs: seq<Input>, j: nat, q: Request, c: Content)
    requires forall i :: i in inputs ==> ValidInput(i)
    requires EndsWithRestore(env, inputs, j, q, c)
    ensures RunLoop(env, BOOT, inputs).echo == Some(ArmedBy(env, inputs, j, c))
  {
    var n := |inputs| - 1;
    var x := Examined(env, RunLoop(env, BOOT, inputs[..n]), inputs[n]);
    ServeAllNext(env, x, inputs[n].requests, j);
    ArmsLast(env, x, inputs[n].requests, j);
    ServeArms(env, BeforeServing(env, inputs, j), q);
  }

  lemma RestoredIsStored(env: Env, inputs: seq<Input>, j: nat, q: Request, c: Content)
    requires forall i :: i in inputs ==> ValidInput(i)
    requires EndsWithRestore(env, inputs, j, q, c)
    ensures ContentStored(env.utf8, c)
    ensures var s := RunLoop(env, BOOT, inputs); Mirrored(s) && s.app.pending == []
  {
    RunMirrors(env, inputs);
    RunStores(env, inputs);
    SucceedsFinds(env, inputs, j, q);
  }

  // ---- Which entries are recognised ----

  /** Entries whose echo is recognised whatever the hash maps do: those without text, and those of which
      every payload that may fill in the aliases has the preview as its first line. */
  ghost predicate Recognisable(utf8: Decoder, c: Content) {
    !HasText(c) || FallbacksShow(utf8, c, Representations(c))
  }

  lemma RecognisableIff(utf8: Decoder, c: Content)
    requires ContentStored(utf8, c)
    ensures Recognisable(utf8, c) <==> AlwaysRecognised(utf8, c)
    ensures c.Text? && (HoldsPlain(Representations(c)) || |Representations(c)| == 1) ==> Recognisable(utf8, c)
  {
    if HasText(c) {
      TextRecognisedIff(utf8, c, Representations(c));
      if c.Text? && (HoldsPlain(Representations(c)) || |Representations(c)| == 1) {
        TextIsRecognised(utf8, c, Representations(c));
      }
    } else {
      ImagesAreRecognised(utf8, c, Representations(c));
    }
  }

  lemma EchoIsRecognised(utf8: Decoder, c: Content, r: seq<Mime>, offered: seq<Mime>, echo: Content)
    requires ContentStored(utf8, c) && Recognisable(utf8, c) && IsEchoOf(utf8, c, r, offered, echo)
    ensures Preview(echo) == Preview(c)
  {
    RecognisableIff(utf8, c);
  }

  // ---- The turn that drains the echo ----

  /** After a run that ends with a restore of `c`, quiet turns and then turn `i`, in which, among any other
      events, the compositor offers exactly what was published for `q`. */
  ghost predicate EchoFollows(
    env: Env, inputs: seq<Input>, j: nat, q: Request, c: Content, quiet: seq<Input>, i: Input, copy: Copy)
    requires (forall x :: x in inputs ==> ValidInput(x)) && (forall x :: x in quiet ==> ValidInput(x)) && ValidInput(i)
  {
    && EndsWithRestore(env, inputs, j, q, c)
    && QuietRun(env, RunLoop(env, BOOT, inputs), quiet, ArmedBy(env, inputs, j, c))
    && EchoInput(RunLoop(env, RunLoop(env, BOOT, inputs), quiet).app, i, PublishedFor(q.oracle, c), copy)
  }

  /** The `k`-th store of the turn is the echo's. */
  ghost predicate EchoAt(env: Env, t: Loop, i: Input, copy: Copy, k: nat)
    requires ValidInput(i)
  {
    k < |TurnOrder(t, i)| && TurnOrder(t, i)[k] == copy.offer.pid && k < |TurnOps(env, t, i)|
  }

  /** No other entry that the turn creates has the expected preview. */
  ghost predicate OnlyEchoMatches(env: Env, t: Loop, i: Input, copy: Copy, armed: Armed)
    requires ValidInput(i)
  {
    forall k: nat :: EchoAt(env, t, i, copy, k) ==>
      forall f :: f in Besides(Fresh(env, t, i), CreatedAt(env, t, i, k)) ==> !Matches(f, armed)
  }

  /** What the turn stores for the echo's offer is an echo of the restored content; the flag is armed when
      the turn begins. */
  lemma EchoTurn(
    env: Env, inputs: seq<Input>, j: nat, q: Request, c: Content, quiet: seq<Input>, i: Input, copy: Copy)
    returns (k: nat)
    requires (forall x :: x in inputs ==> ValidInput(x)) && (forall x :: x in quiet ==> ValidInput(x)) && ValidInput(i)
    requires EchoFollows(env, inputs, j, q, c, quiet, i, copy)
    ensures ContentStored(env.utf8, c)
    ensures var t := RunLoop(env, RunLoop(env, BOOT, inputs), quiet);
            && Mirrored(t) && t.echo == Some(ArmedBy(env, inputs, j, c))
            && EchoAt(env, t, i, copy, k)
            && IsEchoOf(env.utf8, c, q.oracle.hash(0, Representations(c).Keys), copy.offered,
                        TurnOps(env, t, i)[k].content)
  {
    var s, armed := RunLoop(env, BOOT, inputs), ArmedBy(env, inputs, j, c);
    RestoreArms(env, inputs, j, q, c);
    RestoredIsStored(env, inputs, j, q, c);
    QuietRunKeepsArmed(env, s, quiet, armed);
    k := EchoStores(env, RunLoop(env, s, quiet), i, c, Representations(c), q.oracle.hash(0, Representations(c).Keys),
                    copy);
  }

  /** The entries other than the echo's are announced, and only the echo's leaves the history. */
  ghost predicate OthersAnnounced(env: Env, t: Loop, i: Input, k: nat)
    requires ValidInput(i) && k < |TurnOps(env, t, i)|
  {
    var u, echo := Iterate(env, t, i), CreatedAt(env, t, i, k);
    && u.events == t.events + Rows(Besides(Fresh(env, t, i), echo))
    && u.mirror == Last(u.events, MAX_HISTORY)
    && u.app.history.entries == Besides(Collect(env, t, i).0.app.history.entries, echo)
  }

  lemma EchoUnseen(
    env: Env, t: Loop, i: Input, armed: Armed, copy: Copy, k: nat, c: Content, r: seq<Mime>)
    requires ValidInput(i) && Mirrored(t) && t.echo == Some(armed)
    requires TurnInWindow(env, t, i, armed) && OnlyEchoMatches(env, t, i, copy, armed)
    requires EchoAt(env, t, i, copy, k) && IsEchoOf(env.utf8, c, r, copy.offered, TurnOps(env, t, i)[k].content)
    requires ContentStored(env.utf8, c) && Recognisable(env.utf8, c) && armed.preview == Preview(c)
    ensures OthersAnnounced(env, t, i, k)
  {
    EchoIsRecognised(env.utf8, c, r, copy.offered, TurnOps(env, t, i)[k].content);
    ArmedTurnShowsOthers(env, t, i, armed, k);
  }

  /** A restored entry that is recognisable comes back unseen, also when its echo shares a turn with other
      copies: the turn announces exactly the other entries it creates, and the history loses exactly the
      echo's entry, if the echo was not ignored as a duplicate. */
  lemma RestoredEchoAddsNothing(
    env: Env, inputs: seq<Input>, j: nat, q: Request, c: Content, quiet: seq<Input>, i: Input, copy: Copy)
    returns (k: nat)
    requires (forall x :: x in inputs ==> ValidInput(x)) && (forall x :: x in quiet ==> ValidInput(x)) && ValidInput(i)
    requires EchoFollows(env, inputs, j, q, c, quiet, i, copy) && Recognisable(env.utf8, c)
    requires var t, armed := RunLoop(env, RunLoop(env, BOOT, inputs), quiet), ArmedBy(env, inputs, j, c);
             TurnInWindow(env, t, i, armed) && OnlyEchoMatches(env, t, i, copy, armed)
    ensures var t := RunLoop(env, RunLoop(env, BOOT, inputs), quiet);
            EchoAt(env, t, i, copy, k) && OthersAnnounced(env, t, i, k)
  {
    k := EchoTurn(env, inputs, j, q, c, quiet, i, copy);
    EchoUnseen(env, RunLoop(env, RunLoop(env, BOOT, inputs), quiet), i, ArmedBy(env, inputs, j, c), copy, k, c,
               q.oracle.hash(0, Representations(c).Keys));
  }

  /** The echo is text; if it is stored and still held at the end of the turn, its row was announced. */
  ghost predicate PhantomShown(env: Env, t: Loop, i: Input, k: nat)
    requires ValidInput(i) && k < |TurnOps(env, t, i)|
  {
    && TurnOps(env, t, i)[k].content.Text?
    && var echo := CreatedAt(env, t, i, k);
       echo.Some? && echo.value in Fresh(env, t, i) ==>
         RowAdded(t, Iterate(env, t, i), echo.value) && SummaryOf(echo.value).kind == TextKind
  }

  lemma PhantomSeen(env: Env, t: Loop, i: Input, copy: Copy, k: nat, c: Content, r: seq<Mime>)
    requires ValidInput(i) && HistoryOk(t.app.history) && (t.echo.Some? ==> t.echo.value.preview == Preview(c))
    requires EchoAt(env, t, i, copy, k) && IsEchoOf(env.utf8, c, r, copy.offered, TurnOps(env, t, i)[k].content)
    requires ContentStored(env.utf8, c) && c.Mixed? && HasText(c) && HoldsPlain(Representations(c))
    ensures PhantomShown(env, t, i, k)
  {
    var echo := CreatedAt(env, t, i, k);
    MixedIsNeverRecognised(env.utf8, c, Representations(c), r, copy.offered, TurnOps(env, t, i)[k].content);
    if echo.Some? && echo.value in Fresh(env, t, i) {
      UnexpectedIsShown(env, t, i, echo.value);
    }
  }

  /** A restored mixed entry with a plain payload comes back as a phantom row, whatever else the turn
      stores: a text entry without the images is announced, unless it repeats the newest entry or is
      pushed out again within the turn. */
  lemma RestoredMixedShowsPhantom(
    env: Env, inputs: seq<Input>, j: nat, q: Request, c: Content, quiet: seq<Input>, i: Input, copy: Copy)
    returns (k: nat)
    requires (forall x :: x in inputs ==> ValidInput(x)) && (forall x :: x in quiet ==> ValidInput(x)) && ValidInput(i)
    requires EchoFollows(env, inputs, j, q, c, quiet, i, copy)
    requires c.Mixed? && HasText(c) && HoldsPlain(Representations(c))
    ensures var t := RunLoop(env, RunLoop(env, BOOT, inputs), quiet);
            EchoAt(env, t, i, copy, k) && PhantomShown(env, t, i, k)
  {
    k := EchoTurn(env, inputs, j, q, c, quiet, i, copy);
    PhantomSeen(env, RunLoop(env, RunLoop(env, BOOT, inputs), quiet), i, copy, k, c,
                q.oracle.hash(0, Representations(c).Keys));
  }

  // ---- The echo on its own ----

  /** Requests for published types, answered with the published bytes. */
  function Served(published: Blobs): Answers {
    map m | m in published :: Opened(Sent(published[m]))
  }

  lemma OneStore(h: History, ops: seq<Op>)
    requires |ops| == 1 && ops[0].Store?
    ensures Created(h, ops) ==
            if Repeats(h.entries, ops[0].content) then [] else [Entry(h.nextId, ops[0].now, ops[0].content)]
  {
    CreatedSnoc(h, [], ops[0]);
    assert ops == [] + [ops[0]];
  }

  lemma BesidesItself(e: Entry)
    ensures Besides([e], Some(e)) == []
  {
    assert [e][1..] == [] && Without([e][1..], e.id) == [];
  }

  /** A turn with a single group creates at most one entry. */
  lemma StoresOnce(env: Env, t: Loop, i: Input, id: nat)
    requires ValidInput(i) && HistoryOk(t.app.history) && TurnOrder(t, i) == [id]
    ensures |TurnOps(env, t, i)| == 1 && |StoredIds(Collect(env, t, i).1)| <= 1
    ensures var echo := CreatedAt(env, t, i, 0);
            && Fresh(env, t, i) == (if echo.Some? then [echo.value] else [])
            && Besides(Fresh(env, t, i), echo) == []
  {
    var h, ops := t.app.history, TurnOps(env, t, i);
    TurnStores(env, t, i, 0);
    OneStore(h, ops);
    assert ops[..0] == [];
    TurnSetup(env, t, i);
    assert Fresh(env, t, i) == Created(h, ops);
    if CreatedAt(env, t, i, 0).Some? {
      BesidesItself(CreatedAt(env, t, i, 0).value);
    }
  }

  lemma NothingElseMatches(env: Env, t: Loop, i: Input, copy: Copy, armed: Armed)
    requires ValidInput(i) && |TurnOps(env, t, i)| == 1 && Besides(Fresh(env, t, i), CreatedAt(env, t, i, 0)) == []
    ensures OnlyEchoMatches(env, t, i, copy, armed)
  {
    assert forall k: nat :: EchoAt(env, t, i, copy, k) ==> k == 0;
  }

  /** The input that echoes what restoring `c` published, on its own. */
  function EchoAlone(o: Oracle, published: Blobs, offered: seq<Mime>, offer: Offer): Input {
    Input(CopyEvents(offer, offered, Served(published)), o, [])
  }

  lemma EchoAloneArrives(env: Env, t: Loop, c: Content, r: seq<Mime>, o: Oracle, offered: seq<Mime>, offer: Offer)
    requires HistoryOk(t.app.history) && t.app.pending == []
    requires t.app.selection.Some? ==> t.app.selection.value.pid != offer.pid
    requires ContentStored(env.utf8, c) && ValidOracle(o)
    requires IsIteration(r, Representations(c)) && IsIteration(offered, Published(c, r))
    ensures var i := EchoAlone(o, Published(c, r), offered, offer);
            var copy := Alone(offer, offered, Served(Published(c, r)));
            ValidInput(i) && EchoInput(t.app, i, Published(c, r), copy) && TurnOrder(t, i) == [offer.pid]
  {
    var published := Published(c, r);
    var copy := Alone(offer, offered, Served(published));
    CopySelectsOnce(t.app, offer, offered, Served(published));
    PublishedGrouped(env.utf8, c, Representations(c), r, offered);
    EchoDelivered(published, copy);
    CopyGroup(t.app, offer, offered, Served(published));
  }

  lemma EchoAloneTurn(env: Env, t: Loop, c: Content, r: seq<Mime>, o: Oracle, offered: seq<Mime>, armed: Armed)
    returns (i: Input, copy: Copy)
    requires HistoryOk(t.app.history) && t.app.pending == []
    requires ContentStored(env.utf8, c) && ValidOracle(o)
    requires IsIteration(r, Representations(c)) && IsIteration(offered, Published(c, r))
    ensures ValidInput(i) && EchoInput(t.app, i, Published(c, r), copy)
    ensures TurnOrder(t, i) == [copy.offer.pid] && OnlyEchoMatches(env, t, i, copy, armed)
    ensures |StoredIds(Collect(env, t, i).1)| <= 1 && i.requests == []
  {
    var n := if t.app.selection.Some? then t.app.selection.value.pid + 1 else 0;
    i := EchoAlone(o, Published(c, r), offered, Offer(n, n));
    copy := Alone(Offer(n, n), offered, Served(Published(c, r)));
    EchoAloneArrives(env, t, c, r, o, offered, Offer(n, n));
    StoresOnce(env, t, i, n);
    NothingElseMatches(env, t, i, copy, armed);
  }

  /** After every restore such a turn is possible, and takes no more than two readings of the clock. */
  lemma EchoCanFollow(env: Env, inputs: seq<Input>, j: nat, q: Request, c: Content, o: Oracle)
    returns (i: Input, copy: Copy)
    requires (forall x :: x in inputs ==> ValidInput(x)) && ValidOracle(o)
    requires EndsWithRestore(env, inputs, j, q, c)
    ensures ValidInput(i) && EchoFollows(env, inputs, j, q, c, [], i, copy)
    ensures var t := RunLoop(env, BOOT, inputs);
            && TurnOrder(t, i) == [copy.offer.pid] && OnlyEchoMatches(env, t, i, copy, ArmedBy(env, inputs, j, c))
            && |StoredIds(Collect(env, t, i).1)| <= 1
    ensures i.requests == []
  {
    var published := PublishedFor(q.oracle, c);
    RestoredIsStored(env, inputs, j, q, c);
    i, copy := EchoAloneTurn(env, RunLoop(env, BOOT, inputs), c, q.oracle.hash(0, Representations(c).Keys), o,
                             q.oracle.hash(1, published.Keys), ArmedBy(env, inputs, j, c));
  }
}
