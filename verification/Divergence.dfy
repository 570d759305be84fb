/** A run on which the mirror and the history part ways: fill the history, restore the newest entry,
    drain its echo. The echo evicts the oldest entry before it is removed again. */
module Divergence {
  import opened Config
  import opened Seqs
  import opened Mimes
  import opened Contents
  import opened Histories
  import opened Drains
  import opened Wire
  import opened AppStates
  import opened EventLoops
  import opened Mirrors
  import opened Echoes
  import opened Storage
  import opened Batches
  import opened Lifetimes
  import opened EchoRuns
  import opened RoundTrips
  import opened Scenarios

  // ---- Filling the history ----

  function Payload(n: nat): Bytes {
    [if n % 2 == 0 then 65 else 66]
  }

  function Plain(n: nat): Answers {
    map[PLAIN := Opened(Sent(Payload(n)))]
  }

  /** The `n`-th copy: one byte of plain text, different from the previous one. */
  function CopyInput(o: Oracle, n: nat): Input {
    CopyAlone(o, Offer(n, n), [PLAIN], Plain(n))
  }

  function CopyInputs(o: Oracle, n: nat): (r: seq<Input>)
    requires ValidOracle(o)
    ensures |r| == n && forall i :: i in r ==> ValidInput(i)
  {
    if n == 0 then [] else CopyInputs(o, n - 1) + [CopyInput(o, n - 1)]
  }

  /** Before the `n`-th copy. */
  ghost predicate Filled(utf8: Decoder, s: Loop, n: nat) {
    && Mirrored(s) && Exact(s) && s.echo == None
    && s.app.pending == [] && s.app.manager && s.app.device
    && s.app.selection == (if n == 0 then None else Some(Offer(n - 1, n - 1)))
    && |s.app.history.entries| == n
    && (n > 0 ==> Representations(s.app.history.entries[n - 1].content) == map[PLAIN := Payload(n - 1)])
  }

  lemma PlainDelivered(n: nat)
    ensures Delivered([PLAIN], Plain(n)) == map[PLAIN := Payload(n)]
  {
    PlainIsText();
    ShortOfferPicked([PLAIN], PLAIN);
    PickIsSelection([PLAIN]);
  }

  lemma PayloadsDiffer(n: nat)
    ensures n > 0 ==> map[PLAIN := Payload(n)] != map[PLAIN := Payload(n - 1)]
  {
    if n > 0 {
      assert map[PLAIN := Payload(n)][PLAIN] != map[PLAIN := Payload(n - 1)][PLAIN];
    }
  }

  lemma AddNew(h: History, c: Content, now: int)
    requires |h.entries| < MAX_HISTORY
    requires h.entries != [] ==> Representations(h.entries[|h.entries| - 1].content) != Representations(c)
    ensures var entries, n := Add(h, Some(c), now).0.entries, |h.entries|;
            |entries| == n + 1 && entries[n].content == c
  {
  }

  lemma PlainContent(utf8: Decoder, o: Oracle, n: nat)
    requires ValidOracle(o)
    ensures var c := ContentAt(utf8, o, map[PLAIN := Payload(n)], 0);
            c.Some? && Representations(c.value) == map[PLAIN := Payload(n)]
  {
    assert PLAIN in map[PLAIN := Payload(n)];
    EchoClassified(utf8, o, map[PLAIN := Payload(n)], 0);
  }

  lemma PlainIsAdded(utf8: Decoder, o: Oracle, h: History, n: nat)
    requires ValidOracle(o) && |h.entries| == n < MAX_HISTORY
    requires n > 0 ==> Representations(h.entries[n - 1].content) == map[PLAIN := Payload(n - 1)]
    ensures var entries := Add(h, ContentAt(utf8, o, map[PLAIN := Payload(n)], 0), o.stamps(0)).0.entries;
            |entries| == n + 1 && Representations(entries[n].content) == map[PLAIN := Payload(n)]
  {
    PlainContent(utf8, o, n);
    PayloadsDiffer(n);
    AddNew(h, ContentAt(utf8, o, map[PLAIN := Payload(n)], 0).value, o.stamps(0));
  }

  lemma CopyFills(env: Env, o: Oracle, s: Loop, n: nat)
    requires ValidOracle(o) && Filled(env.utf8, s, n) && n < MAX_HISTORY
    ensures ValidInput(CopyInput(o, n)) && Filled(env.utf8, Iterate(env, s, CopyInput(o, n)), n + 1)
  {
    PlainDelivered(n);
    assert PLAIN in map[PLAIN := Payload(n)];
    CopyTurn(env, o, s, Offer(n, n), [PLAIN], Plain(n));
    TurnMirrors(env, s, CopyInput(o, n));
    PlainIsAdded(env.utf8, o, s.app.history, n);
  }

  lemma {:induction false} CopiesFill(env: Env, o: Oracle, n: nat)
    requires ValidOracle(o) && n <= MAX_HISTORY
    ensures Filled(env.utf8, RunLoop(env, BOOT, CopyInputs(o, n)), n)
  {
    if n > 0 {
      CopiesFill(env, o, n - 1);
      CopyFills(env, o, RunLoop(env, BOOT, CopyInputs(o, n - 1)), n - 1);
      assert CopyInputs(o, n)[..n - 1] == CopyInputs(o, n - 1);
    }
  }

  // ---- The echo of a plain text entry ----

  lemma PlainIsRecognisable(utf8: Decoder, c: Content, p: Bytes)
    requires ContentStored(utf8, c) && Representations(c) == map[PLAIN := p]
    ensures c.Text? && Recognisable(utf8, c)
  {
    var blobs := Representations(c);
    PlainIsText();
    ClassifiedShape(utf8, blobs, c);
    assert PLAIN in TextBlobs(blobs);
    assert ImageBlobs(blobs) == map[];
    RecognisableIff(utf8, c);
  }

  /** The echo of plain text comes with one representation more, so it is not the same content. */
  lemma EchoIsWider(utf8: Decoder, c: Content, p: Bytes, r: seq<Mime>, offered: seq<Mime>, echo: Content)
    requires ContentStored(utf8, c) && c.Text? && Representations(c) == map[PLAIN := p]
    requires IsEchoOf(utf8, c, r, offered, echo)
    ensures echo != c
  {
    EchoIsText(utf8, c, Representations(c), r, offered, echo);
    EchoBlobsShape(Restores.Published(c, r), offered);
    assert PLAIN_UTF8 in Representations(echo);
    assert PLAIN_UTF8 !in map[PLAIN := p] by { assert |PLAIN_UTF8| != |PLAIN|; }
  }

  /** Draining an echo that is stored into a full history leaves the mirror with one extra row. */
  lemma SilentStoreDiverges(env: Env, t: Loop, i: Input)
    requires ValidInput(i) && Mirrored(t) && |t.app.history.entries| == MAX_HISTORY
    requires Fresh(env, t, i) != [] && Iterate(env, t, i).events == t.events
    ensures !Exact(Iterate(env, t, i))
  {
    SilentSuppresses(env, t, i);
    TurnMirrors(env, t, i);
  }

  lemma NewestDiffers(env: Env, t: Loop, i: Input, c: Content)
    requires ValidInput(i) && |TurnOps(env, t, i)| == 1 && TurnOps(env, t, i)[0].content != c
    requires t.app.history.entries != [] && t.app.history.entries[|t.app.history.entries| - 1].content == c
    ensures CreatedAt(env, t, i, 0).Some?
  {
    assert TurnOps(env, t, i)[..0] == [];
  }

  /** The echo is stored next to the entry. */
  lemma EchoIsFresh(env: Env, t: Loop, c: Content, p: Bytes, r: seq<Mime>, i: Input, copy: Copy)
    requires ValidInput(i) && HistoryOk(t.app.history) && t.app.history.entries != []
    requires ContentStored(env.utf8, c) && c.Text? && Representations(c) == map[PLAIN := p]
    requires t.app.history.entries[|t.app.history.entries| - 1].content == c
    requires TurnOrder(t, i) == [copy.offer.pid] && EchoAt(env, t, i, copy, 0)
    requires IsEchoOf(env.utf8, c, r, copy.offered, TurnOps(env, t, i)[0].content)
    ensures Fresh(env, t, i) != [] && Besides(Fresh(env, t, i), CreatedAt(env, t, i, 0)) == []
  {
    StoresOnce(env, t, i, copy.offer.pid);
    EchoIsWider(env.utf8, c, p, r, copy.offered, TurnOps(env, t, i)[0].content);
    NewestDiffers(env, t, i, c);
  }

  /** The situation in which the mirror diverges: a full history, an armed flag, and the echo of the
      newest entry, which is plain text, on its own. */
  ghost predicate EchoArrives(env: Env, t: Loop, c: Content, r: seq<Mime>, i: Input, copy: Copy, armed: Armed)
    requires ValidInput(i)
  {
    && Mirrored(t) && t.echo == Some(armed) && armed.preview == Preview(c) && ContentStored(env.utf8, c)
    && |t.app.history.entries| == MAX_HISTORY && t.app.history.entries[MAX_HISTORY - 1].content == c
    && TurnOrder(t, i) == [copy.offer.pid] && EchoAt(env, t, i, copy, 0)
    && OnlyEchoMatches(env, t, i, copy, armed) && TurnInWindow(env, t, i, armed)
    && IsEchoOf(env.utf8, c, r, copy.offered, TurnOps(env, t, i)[0].content)
  }

  lemma EchoDoesArrive(env: Env, inputs: seq<Input>, q: Request, c: Content, i: Input, copy: Copy)
    requires (forall x :: x in inputs ==> ValidInput(x)) && ValidInput(i)
    requires EchoFollows(env, inputs, 0, q, c, [], i, copy)
    requires var t, armed := RunLoop(env, BOOT, inputs), ArmedBy(env, inputs, 0, c);
             && TurnOrder(t, i) == [copy.offer.pid] && OnlyEchoMatches(env, t, i, copy, armed)
             && TurnInWindow(env, t, i, armed)
             && |t.app.history.entries| == MAX_HISTORY && t.app.history.entries[MAX_HISTORY - 1].content == c
    ensures ValidOracle(q.oracle)
    ensures EchoArrives(env, RunLoop(env, BOOT, inputs), c, q.oracle.hash(0, Representations(c).Keys), i, copy,
                        ArmedBy(env, inputs, 0, c))
  {
    var k := EchoTurn(env, inputs, 0, q, c, [], i, copy);
    assert k == 0;
  }

  lemma EchoDiverges(env: Env, t: Loop, c: Content, p: Bytes, r: seq<Mime>, i: Input, copy: Copy, armed: Armed)
    requires ValidInput(i) && EchoArrives(env, t, c, r, i, copy, armed) && Representations(c) == map[PLAIN := p]
    ensures !Exact(Iterate(env, t, i))
  {
    PlainIsRecognisable(env.utf8, c, p);
    EchoUnseen(env, t, i, armed, copy, 0, c, r);
    EchoIsFresh(env, t, c, p, r, i, copy);
    SilentStoreDiverges(env, t, i);
  }

  lemma NewestIsFound(s: Loop, n: nat)
    requires HistoryOk(s.app.history) && |s.app.history.entries| == n > 0
    ensures var e := s.app.history.entries[n - 1]; Find(s.app.history.entries, e.id) == Some(e)
  {
    FindAt(s.app.history.entries, n - 1);
  }

  /** The mirror does diverge: with any decoder there is a run that ends with a row in the mirror that the
      history no longer holds. */
  lemma MirrorDiverges(utf8: Decoder) returns (env: Env, inputs: seq<Input>)
    ensures env.utf8 == utf8 && forall i :: i in inputs ==> ValidInput(i)
    ensures !Exact(RunLoop(env, BOOT, inputs))
  {
    env := Stopped(utf8);
    var o := SomeOracle();
    var copies := CopyInputs(o, MAX_HISTORY);
    CopiesFill(env, o, MAX_HISTORY);
    var s := RunLoop(env, BOOT, copies);
    var e := s.app.history.entries[MAX_HISTORY - 1];
    NewestIsFound(s, MAX_HISTORY);
    RestoreEnds(env, o, copies, e);
    var restored := copies + [RestoreAlone(o, e.id)];
    var i, copy := EchoCanFollow(env, restored, 0, Request(e.id, o), e.content, o);
    EchoDoesArrive(env, restored, Request(e.id, o), e.content, i, copy);
    EchoDiverges(env, RunLoop(env, BOOT, restored), e.content, Payload(MAX_HISTORY - 1),
                 o.hash(0, Representations(e.content).Keys), i, copy, ArmedBy(env, restored, 0, e.content));
    RunNext(env, restored, i);
    inputs := restored + [i];
  }
}
