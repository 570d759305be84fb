/** A run on which the UI sees a phantom row: one copy of text and an image, its restore, its echo. */
module Phantoms {
  import opened Config
  import opened Seqs
  import opened Mimes
  import opened Contents
  import opened Histories
  import opened Snapshots
  import opened Drains
  import opened Wire
  import opened AppStates
  import opened EventLoops
  import opened Mirrors
  import opened Echoes
  import opened Batches
  import opened Lifetimes
  import opened EchoRuns
  import opened RoundTrips
  import opened Scenarios

  const PNG: Mime := "image/png"
  const OFFERED: seq<Mime> := [PLAIN, PNG]

  /** One byte of plain text and one byte of image. */
  function Rich(): Answers {
    map[PLAIN := Opened(Sent([65])), PNG := Opened(Sent([1]))]
  }

  function RichBlobs(): Blobs {
    map[PLAIN := [65], PNG := [1]]
  }

  lemma TypesDiffer()
    ensures PLAIN != PNG && IsTextMime(PLAIN) && !IsTextMime(PNG) && PNG in SUPPORTED_BINARY_MIMES
  {
    PlainIsText();
    TablesAreClassified();
    assert PNG == SUPPORTED_BINARY_MIMES[0];
    assert |PLAIN| != |PNG|;
  }

  lemma BothPicked()
    ensures forall m :: m in Pick(OFFERED) <==> m == PLAIN || m == PNG
  {
    TypesDiffer();
    assert OFFERED[0] == PLAIN && OFFERED[1] == PNG;
    ShortOfferPicked(OFFERED, PLAIN);
    ShortOfferPicked(OFFERED, PNG);
    PickIsSelection(OFFERED);
    assert forall m :: m in Pick(OFFERED) ==> m in Candidates(OFFERED);
  }

  lemma RichPayloads()
    ensures PLAIN != PNG && PayloadFor(Rich(), PLAIN) == Some([65]) && PayloadFor(Rich(), PNG) == Some([1])
  {
    TypesDiffer();
  }

  lemma RichDelivered()
    ensures Delivered(OFFERED, Rich()) == RichBlobs()
  {
    BothPicked();
    RichPayloads();
  }

  lemma RichIsMixed(utf8: Decoder, c: Content)
    requires StoredAs(utf8, c, RichBlobs())
    ensures c.Mixed? && HasText(c) && HoldsPlain(Representations(c))
  {
    TypesDiffer();
    ClassifiedShape(utf8, RichBlobs(), c);
    assert PLAIN in TextBlobs(RichBlobs()) && PNG in ImageBlobs(RichBlobs());
  }

  /** What is delivered is classified as text with an image. */
  lemma RichContent(env: Env, o: Oracle) returns (c: Content)
    requires ValidOracle(o)
    ensures Delivered(OFFERED, Rich()) != map[]
    ensures ContentAt(env.utf8, o, Delivered(OFFERED, Rich()), 0) == Some(c)
    ensures c.Mixed? && HasText(c) && HoldsPlain(Representations(c))
  {
    RichDelivered();
    assert PLAIN in Delivered(OFFERED, Rich());
    EchoClassified(env.utf8, o, RichBlobs(), 0);
    c := ContentAt(env.utf8, o, RichBlobs(), 0).value;
    RichIsMixed(env.utf8, c);
  }

  /** After the copy the history holds one entry, and its row has been announced. */
  lemma FirstCopy(env: Env, o: Oracle) returns (e: Entry)
    requires ValidOracle(o)
    ensures ValidInput(CopyAlone(o, Offer(0, 0), OFFERED, Rich()))
    ensures var s := Iterate(env, BOOT, CopyAlone(o, Offer(0, 0), OFFERED, Rich()));
            && s.app.history.entries == [e] && e.id == 1 && s.events == [SummaryOf(e)]
            && s.app.manager && s.app.device && s.app.pending == [] && s.restored == []
    ensures e.content.Mixed? && HasText(e.content) && HoldsPlain(Representations(e.content))
  {
    var c := RichContent(env, o);
    CopyTurn(env, o, BOOT, Offer(0, 0), OFFERED, Rich());
    e := Entry(1, o.stamps(0), c);
    AddFirst(c, o.stamps(0));
    FirstRow(env, CopyAlone(o, Offer(0, 0), OFFERED, Rich()), e);
  }

  lemma AddFirst(c: Content, now: int)
    ensures Add(EMPTY, Some(c), now).0.entries == [Entry(1, now, c)]
  {
    assert Last([] + [Entry(1, now, c)], MAX_HISTORY) == [Entry(1, now, c)];
  }

  /** The first turn announces what it stores. */
  lemma FirstRow(env: Env, i: Input, e: Entry)
    requires ValidInput(i)
    requires var t := Iterate(env, BOOT, i); t.app.history.entries == [e] && t.suppressed == []
    ensures Iterate(env, BOOT, i).events == [SummaryOf(e)]
  {
    var announced := TurnHasEffect(env, BOOT, i);
    ServeAllKeeps(env, Examined(env, BOOT, i), i.requests);
    assert [] + announced == announced;
    assert announced == [e];
    assert Rows([e]) == [SummaryOf(e)];
  }

  /** A stored text content never repeats a mixed one, so the echo becomes the one new entry. */
  lemma PhantomIsNew(env: Env, t: Loop, i: Input, id: nat, e: Entry)
    requires ValidInput(i) && Mirrored(t) && TurnOrder(t, i) == [id]
    requires t.app.history.entries == [e] && e.content.Mixed? && |TurnOps(env, t, i)| == 1
    requires PhantomShown(env, t, i, 0)
    ensures var u := Iterate(env, t, i);
            |u.events| == |t.events| + 1 && t.events <= u.events && u.events[|t.events|].kind == TextKind
  {
    StoresOnce(env, t, i, id);
    assert TurnOps(env, t, i)[..0] == [];
    var echo, u := CreatedAt(env, t, i, 0), Iterate(env, t, i);
    assert echo.Some? && echo.value in Fresh(env, t, i);
    var announced := TurnHasEffect(env, t, i);
    ServeAllKeeps(env, Examined(env, t, i), i.requests);
    OneRow(t.events, u.events, announced, SummaryOf(echo.value));
  }

  lemma OneRow(before: seq<Summary>, after: seq<Summary>, announced: seq<Entry>, row: Summary)
    requires after == before + Rows(announced) && |announced| <= 1 && row in after[|before|..]
    ensures |after| == |before| + 1 && before <= after && after[|before|] == row
  {
  }

  /** The first two turns: the copy, and its restore. */
  function CopyAndRestore(o: Oracle): seq<Input> {
    [CopyAlone(o, Offer(0, 0), OFFERED, Rich())] + [RestoreAlone(o, 1)]
  }

  lemma RestoredFirst(env: Env, o: Oracle) returns (e: Entry)
    requires ValidOracle(o)
    ensures forall i :: i in CopyAndRestore(o) ==> ValidInput(i)
    ensures EndsWithRestore(env, CopyAndRestore(o), 0, Request(1, o), e.content)
    ensures var s := RunLoop(env, BOOT, CopyAndRestore(o));
            && s.app.history.entries == [e] && s.events == [SummaryOf(e)] && |s.restored| == 1 && Mirrored(s)
    ensures e.content.Mixed? && HasText(e.content) && HoldsPlain(Representations(e.content))
  {
    var first := CopyAlone(o, Offer(0, 0), OFFERED, Rich());
    e := FirstCopy(env, o);
    RunNext(env, [], first);
    assert [] + [first] == [first];
    NewestIsOnly(e);
    RestoreEnds(env, o, [first], e);
    RunMirrors(env, CopyAndRestore(o));
  }

  lemma EchoShows(env: Env, inputs: seq<Input>, o: Oracle, e: Entry) returns (i: Input, copy: Copy)
    requires (forall x :: x in inputs ==> ValidInput(x)) && ValidOracle(o)
    requires EndsWithRestore(env, inputs, 0, Request(1, o), e.content)
    requires var t := RunLoop(env, BOOT, inputs); t.app.history.entries == [e] && Mirrored(t)
    requires e.content.Mixed? && HasText(e.content) && HoldsPlain(Representations(e.content))
    ensures ValidInput(i) && i.requests == []
    ensures EchoFollows(env, inputs, 0, Request(1, o), e.content, [], i, copy)
    ensures var t := RunLoop(env, BOOT, inputs);
            var u := Iterate(env, t, i);
            |u.events| == |t.events| + 1 && t.events <= u.events && u.events[|t.events|].kind == TextKind
  {
    i, copy := EchoCanFollow(env, inputs, 0, Request(1, o), e.content, o);
    PhantomArrives(env, inputs, o, e.content, i, copy);
    PhantomIsNew(env, RunLoop(env, BOOT, inputs), i, copy.offer.pid, e);
  }

  lemma PhantomArrives(env: Env, inputs: seq<Input>, o: Oracle, c: Content, i: Input, copy: Copy)
    requires (forall x :: x in inputs ==> ValidInput(x)) && ValidInput(i)
    requires EchoFollows(env, inputs, 0, Request(1, o), c, [], i, copy)
    requires TurnOrder(RunLoop(env, BOOT, inputs), i) == [copy.offer.pid]
    requires c.Mixed? && HasText(c) && HoldsPlain(Representations(c))
    ensures |TurnOps(env, RunLoop(env, BOOT, inputs), i)| == 1 && PhantomShown(env, RunLoop(env, BOOT, inputs), i, 0)
  {
    var k := RestoredMixedShowsPhantom(env, inputs, 0, Request(1, o), c, [], i, copy);
    assert k == 0;
    TurnStores(env, RunLoop(env, BOOT, inputs), i, 0);
  }

  /** A phantom row does appear: with any decoder there is a run of one copy, its restore and the echo of
      what was published, after which two rows were announced, the second for a text entry that nobody
      copied. */
  lemma PhantomAppears(utf8: Decoder) returns (env: Env, o: Oracle, c: Content, echo: Input, copy: Copy)
    ensures env.utf8 == utf8 && ValidOracle(o)
    ensures forall i :: i in CopyAndRestore(o) + [echo] ==> ValidInput(i)
    ensures forall i :: i in CopyAndRestore(o) ==> ValidInput(i)
    ensures EchoFollows(env, CopyAndRestore(o), 0, Request(1, o), c, [], echo, copy)
    ensures var s, t := RunLoop(env, BOOT, CopyAndRestore(o)), RunLoop(env, BOOT, CopyAndRestore(o) + [echo]);
            && |s.events| == 1 && s.events[0].kind == MixedKind
            && |t.events| == 2 && t.events[0] == s.events[0] && t.events[1].kind == TextKind
  {
    env, o := Stopped(utf8), SomeOracle();
    var e := RestoredFirst(env, o);
    c := e.content;
    echo, copy := EchoShows(env, CopyAndRestore(o), o, e);
    RunNext(env, CopyAndRestore(o), echo);
  }

  lemma NewestIsOnly(e: Entry)
    ensures Find([e], e.id) == Some(e)
  {
  }
}
