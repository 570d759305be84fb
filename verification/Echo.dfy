/** Copy, store, restore, echo: what the compositor sends back after a restore, how it is classified,
    and when `is_echo` recognises it. */
module Echoes {
  import opened Config
  import opened Seqs
  import opened Mimes
  import opened Contents
  import opened Drains
  import opened Restores

  /** Blobs as a drain groups them: some, none empty, none oversized. */
  ghost predicate Grouped(blobs: Blobs) {
    blobs != map[] && forall m :: m in blobs ==> 0 < |blobs[m]| <= MAX_CONTENT_BYTES
  }

  /** `c` is what the blobs are classified as, for some iteration orders of the two maps. */
  ghost predicate Classified(utf8: Decoder, blobs: Blobs, c: Content) {
    exists order, textOrder ::
      IsIteration(order, blobs) && IsIteration(textOrder, TextBlobs(blobs)) &&
      FromBlobs(utf8, blobs, order, textOrder) == Some(c)
  }

  ghost predicate StoredAs(utf8: Decoder, c: Content, blobs: Blobs) {
    Grouped(blobs) && Classified(utf8, blobs, c)
  }

  /** The blobs that are read back when the published types are offered in the given order. */
  function EchoBlobs(published: Blobs, offered: seq<Mime>): Blobs {
    map m | m in published && m in Pick(offered) :: Bounded(published[m])
  }

  /** `echo` is what comes back for `c`: `r` is the iteration order of its representations, which
      chooses the fallback, `offered` the order in which the published types are offered. */
  ghost predicate IsEchoOf(utf8: Decoder, c: Content, r: seq<Mime>, offered: seq<Mime>, echo: Content) {
    && IsIteration(r, Representations(c)) && IsIteration(offered, Published(c, r))
    && Classified(utf8, EchoBlobs(Published(c, r), offered), echo)
  }

  // ---- The shape of classified contents ----

  function TextOf(c: Content): TextData
    requires HasText(c)
  {
    if c.Text? then c.t else c.text.value
  }

  /** The decoded text comes from a primary type. */
  ghost predicate TextFrom(utf8: Decoder, c: Content, blobs: Blobs) {
    HasText(c) && exists order ::
      IsIteration(order, blobs) && blobs != map[] && TextOf(c).text == utf8(blobs[PrimaryMime(blobs, order)])
  }

  lemma ClassifiedShape(utf8: Decoder, blobs: Blobs, c: Content)
    requires Grouped(blobs) && Classified(utf8, blobs, c)
    ensures Representations(c) == blobs
    ensures HasText(c) <==> TextBlobs(blobs) != map[]
    ensures c.Text? <==> TextBlobs(blobs) != map[] && ImageBlobs(blobs) == map[]
    ensures c.Mixed? ==> c.images != []
    ensures HasText(c) ==> TextFrom(utf8, c, TextBlobs(blobs))
  {
    var order, textOrder :|
      IsIteration(order, blobs) && IsIteration(textOrder, TextBlobs(blobs)) &&
      FromBlobs(utf8, blobs, order, textOrder) == Some(c);
    assert NonEmpty(blobs) == blobs;
    RepresentationsLossless(utf8, blobs, order, textOrder);
    BuildTextKeeps(utf8, TextBlobs(blobs), textOrder);
    IterationKeys(order, blobs);
    SortedImagesMap(blobs, order);
    ImagesMapEmpty(Sort(ImageList(blobs, order), ImageLe));
  }

  lemma PlainIsPrimary(blobs: Blobs, order: seq<Mime>)
    requires IsIteration(order, blobs) && blobs != map[]
    ensures PLAIN_UTF8 in blobs ==> PrimaryMime(blobs, order) == PLAIN_UTF8
    ensures PLAIN_UTF8 !in blobs && PLAIN in blobs ==> PrimaryMime(blobs, order) == PLAIN
  {
    var p := PREFERRED_TEXT_MIMES;
    assert p[0] == PLAIN_UTF8 && p[1] == PLAIN && p[1..][0] == PLAIN;
    assert FirstPreferred(p, blobs) == if p[0] in blobs then Some(p[0]) else FirstPreferred(p[1..], blobs);
    assert FirstPreferred(p[1..], blobs) == if p[1] in blobs then Some(p[1]) else FirstPreferred(p[1..][1..], blobs);
  }

  predicate HoldsPlain(blobs: Blobs) {
    PLAIN_UTF8 in blobs || PLAIN in blobs
  }

  /** The types whose payload may become the fallback. */
  function FallbackTypes(blobs: Blobs): set<Mime> {
    if PLAIN_UTF8 in blobs then {PLAIN_UTF8} else if PLAIN in blobs then {PLAIN} else blobs.Keys
  }

  lemma FallbackIsChosen(blobs: Blobs, r: seq<Mime>) returns (m: Mime)
    requires IsIteration(r, blobs) && blobs != map[]
    ensures m in FallbackTypes(blobs) && m in blobs && Fallback(blobs, r) == blobs[m]
  {
    IterationKeys(r, blobs);
    assert r != [];
    m := if PLAIN_UTF8 in blobs then PLAIN_UTF8 else if PLAIN in blobs then PLAIN else r[0];
  }

  /** What is published: the stored types, and for a content with text every alias, and nothing else. All
      aliases that are not stored serve one and the same stored payload: the UTF-8 plain one if there is
      one, else the plain one, else any; whatever order the published map iterates in. */
  lemma AliasesServeText(c: Content, r: seq<Mime>) returns (m: Mime)
    requires HasText(c) && Representations(c) != map[] && IsIteration(r, Representations(c))
    ensures m in FallbackTypes(Representations(c)) && m in Representations(c)
    ensures Published(c, r).Keys == Representations(c).Keys + set a | a in TEXT_ALIASES
    ensures forall a, serving ::
      a in TEXT_ALIASES && a !in Representations(c) && IsIteration(serving, Published(c, r)) ==>
        ContentFor(Published(c, r), a, serving) == Some(Representations(c)[m])
  {
    m := FallbackIsChosen(Representations(c), r);
  }

  /** A content without text is published as it is. */
  lemma ImagesServeThemselves(c: Content, r: seq<Mime>)
    requires !HasText(c) && IsIteration(r, Representations(c))
    ensures Published(c, r) == Representations(c)
  {
  }

  /** A type that was not published is served some published payload if it is a text type, and nothing
      otherwise. */
  lemma UnpublishedServed(contents: Blobs, m: Mime, serving: seq<Mime>)
    requires m !in contents && IsIteration(serving, contents)
    ensures var served := ContentFor(contents, m, serving);
            && (served.Some? <==> IsTextMime(m) && contents != map[])
            && (served.Some? ==> exists k :: k in contents && served.value == contents[k])
  {
    IterationKeys(serving, contents);
    if contents != map[] {
      var k :| k in contents;
      assert k in serving;
    }
  }

  lemma PlainIsText()
    ensures IsTextMime(PLAIN_UTF8) && IsTextMime(PLAIN)
  {
    assert "text/" <= PLAIN_UTF8;
  }

  /** With a plain payload, or with a single one, the fallback is the payload of the decoded text. */
  lemma PlainText(utf8: Decoder, c: Content, blobs: Blobs, m: Mime)
    requires StoredAs(utf8, c, blobs) && HasText(c) && m in FallbackTypes(blobs)
    requires HoldsPlain(blobs) || (c.Text? && |blobs| == 1)
    ensures m in blobs && TextOf(c).text == utf8(blobs[m])
  {
    ClassifiedShape(utf8, blobs, c);
    PlainIsText();
    var text := TextBlobs(blobs);
    var order :| IsIteration(order, text) && text != map[] && TextOf(c).text == utf8(text[PrimaryMime(text, order)]);
    PlainIsPrimary(text, order);
    if !HoldsPlain(blobs) {
      OnlyKey(blobs, m, PrimaryMime(text, order));
    }
  }

  lemma OnlyKey(blobs: Blobs, a: Mime, b: Mime)
    requires |blobs| == 1 && a in blobs && b in blobs
    ensures a == b
  {
    if a != b {
      SubsetCard({a, b}, blobs.Keys);
    }
  }

  // ---- What is picked from a topped-up offer ----

  /** With all aliases offered, the four picked are preferred text types, the plain ones first. */
  lemma AliasesArePicked(offered: seq<Mime>)
    requires forall a :: a in TEXT_ALIASES ==> a in offered
    ensures var k := Keep(PREFERRED_TEXT_MIMES, offered);
            && |k| >= 5 && Pick(offered) == k[..MAX_MIMES_PER_SELECTION]
            && Pick(offered)[0] == PLAIN_UTF8 && Pick(offered)[1] == PLAIN
  {
    var first, middle := [PLAIN_UTF8, PLAIN], ["text/markdown", HTML, "text/uri-list"];
    var last := [TEXT_ATOM, STRING_ATOM, UTF8_STRING_ATOM];
    assert PREFERRED_TEXT_MIMES == first + (middle + last);
    assert TEXT_ALIASES[0] in offered && TEXT_ALIASES[1] in offered && TEXT_ALIASES[2] in offered;
    assert TEXT_ALIASES[3] in offered && TEXT_ALIASES[4] in offered;
    KeepAll(first, offered);
    KeepAll(last, offered);
    KeepAppend(first, middle + last, offered);
    KeepAppend(middle, last, offered);
  }

  lemma {:induction false} KeepAll(table: seq<Mime>, offered: seq<Mime>)
    requires forall m :: m in table ==> m in offered
    ensures Keep(table, offered) == table
  {
    if table != [] {
      KeepAll(table[1..], offered);
    }
  }

  lemma PicksArePreferred(offered: seq<Mime>)
    requires forall a :: a in TEXT_ALIASES ==> a in offered
    ensures PLAIN_UTF8 in Pick(offered) && PLAIN in Pick(offered)
    ensures forall m :: m in Pick(offered) ==> m in PREFERRED_TEXT_MIMES && m in offered && IsTextMime(m)
  {
    AliasesArePicked(offered);
    KeepMembers(PREFERRED_TEXT_MIMES, offered);
    TablesAreClassified();
    var k := Keep(PREFERRED_TEXT_MIMES, offered);
    assert forall m :: m in Pick(offered) ==> m in k;
    assert Pick(offered)[0] in Pick(offered) && Pick(offered)[1] in Pick(offered);
  }

  /** Cutting an offer down to a superset of what was picked picks the same again. */
  lemma {:induction false} KeepStable(table: seq<Mime>, a: seq<Mime>, b: seq<Mime>, n: nat)
    requires n <= |Keep(table, a)| && forall m :: m in Keep(table, a)[..n] ==> m in b
    requires forall m :: m in b && m in table ==> m in a
    ensures n <= |Keep(table, b)| && Keep(table, b)[..n] == Keep(table, a)[..n]
  {
    if table != [] && n > 0 {
      var ka, kb := Keep(table, a), Keep(table, b);
      if table[0] in a {
        assert ka == [table[0]] + Keep(table[1..], a) && ka[..n][0] == table[0];
        assert ka[..n] == [table[0]] + Keep(table[1..], a)[..n - 1];
        KeepStable(table[1..], a, b, n - 1);
        assert kb[..n] == [table[0]] + Keep(table[1..], b)[..n - 1];
      } else {
        assert ka == Keep(table[1..], a);
        KeepStable(table[1..], a, b, n);
        assert kb == Keep(table[1..], b);
      }
    }
  }

  // ---- The echo of an entry with text ----

  lemma PublishedShape(c: Content, blobs: Blobs, r: seq<Mime>)
    requires Grouped(blobs) && Representations(c) == blobs && HasText(c) && IsIteration(r, blobs)
    ensures var p := Published(c, r);
            && Grouped(p)
            && (forall m :: m in p <==> m in blobs || m in TEXT_ALIASES)
            && (forall m :: m in blobs ==> p[m] == blobs[m])
            && PLAIN_UTF8 in p && p[PLAIN_UTF8] == Fallback(blobs, r)
  {
    IterationKeys(r, blobs);
    assert TEXT_ALIASES[1] == PLAIN_UTF8;
    assert r != [];
    assert r[0] in blobs;
  }

  lemma EchoBlobsShape(p: Blobs, offered: seq<Mime>)
    requires Grouped(p) && IsIteration(offered, p) && forall a :: a in TEXT_ALIASES ==> a in p
    ensures var e := EchoBlobs(p, offered);
            && PLAIN_UTF8 in e && PLAIN in e && Grouped(e)
            && (forall m :: m in e <==> m in Pick(offered))
            && (forall m :: m in e ==> m in p && e[m] == p[m])
            && TextBlobs(e) == e && ImageBlobs(e) == map[]
  {
    IterationKeys(offered, p);
    PicksArePreferred(offered);
    var e := EchoBlobs(p, offered);
    assert PLAIN_UTF8 in e.Keys;
  }

  lemma PlainTextContent(utf8: Decoder, e: Blobs, echo: Content)
    requires Grouped(e) && TextBlobs(e) == e && ImageBlobs(e) == map[] && PLAIN_UTF8 in e
    requires Classified(utf8, e, echo)
    ensures echo.Text? && Representations(echo) == e
    ensures Preview(echo) == FirstLine(utf8(e[PLAIN_UTF8]))
  {
    ClassifiedShape(utf8, e, echo);
    var order :| IsIteration(order, e) && e != map[] && TextOf(echo).text == utf8(e[PrimaryMime(e, order)]);
    PlainIsPrimary(e, order);
  }

  /** The echo of an entry with text is always text, decoded from the fallback payload. */
  lemma EchoIsText(utf8: Decoder, c: Content, blobs: Blobs, r: seq<Mime>, offered: seq<Mime>, echo: Content)
    requires StoredAs(utf8, c, blobs) && HasText(c) && IsEchoOf(utf8, c, r, offered, echo)
    ensures IsIteration(r, blobs)
    ensures echo.Text? && Preview(echo) == FirstLine(utf8(Fallback(blobs, r)))
    ensures var p := Published(c, r);
            Grouped(p) && (forall a :: a in TEXT_ALIASES ==> a in p) && Representations(echo) == EchoBlobs(p, offered)
  {
    ClassifiedShape(utf8, blobs, c);
    PublishedShape(c, blobs, r);
    EchoBlobsShape(Published(c, r), offered);
    PlainTextContent(utf8, EchoBlobs(Published(c, r), offered), echo);
  }

  /** The echo of `c` has the preview of `c`, whatever order any of the hash maps iterates in. */
  ghost predicate AlwaysRecognised(utf8: Decoder, c: Content) {
    forall r, offered, echo :: IsEchoOf(utf8, c, r, offered, echo) ==> Preview(echo) == Preview(c)
  }

  /** For every iteration of the representations there is an echo. */
  lemma SomeEcho(utf8: Decoder, c: Content, blobs: Blobs, r: seq<Mime>) returns (offered: seq<Mime>, echo: Content)
    requires StoredAs(utf8, c, blobs) && HasText(c) && IsIteration(r, Representations(c))
    ensures IsEchoOf(utf8, c, r, offered, echo)
  {
    ClassifiedShape(utf8, blobs, c);
    PublishedShape(c, blobs, r);
    offered := IterationFrom([], Published(c, r).Keys);
    var e := EchoBlobs(Published(c, r), offered);
    EchoBlobsShape(Published(c, r), offered);
    echo := SomeClassification(utf8, e);
  }

  lemma SomeClassification(utf8: Decoder, e: Blobs) returns (c: Content)
    requires Grouped(e)
    ensures Classified(utf8, e, c)
  {
    var order := IterationFrom([], e.Keys);
    var textOrder := IterationFrom([], TextBlobs(e).Keys);
    assert NonEmpty(e) == e;
    RepresentationsLossless(utf8, e, order, textOrder);
    c := FromBlobs(utf8, e, order, textOrder).value;
  }

  lemma EchoFromFallback(utf8: Decoder, c: Content, blobs: Blobs, r: seq<Mime>, offered: seq<Mime>, echo: Content)
    returns (m: Mime)
    requires StoredAs(utf8, c, blobs) && HasText(c) && IsEchoOf(utf8, c, r, offered, echo)
    ensures m in FallbackTypes(blobs) && m in blobs && Preview(echo) == FirstLine(utf8(blobs[m]))
  {
    EchoIsText(utf8, c, blobs, r, offered, echo);
    m := FallbackIsChosen(blobs, r);
  }

  lemma FallbackOf(blobs: Blobs, r: seq<Mime>, m: Mime)
    requires IsIteration(r, blobs) && [m] <= r && m in FallbackTypes(blobs)
    ensures m in blobs && Fallback(blobs, r) == blobs[m]
  {
    assert r[0] == m;
    IterationKeys(r, blobs);
  }

  lemma FallbackIsReached(utf8: Decoder, c: Content, blobs: Blobs, m: Mime)
    requires StoredAs(utf8, c, blobs) && HasText(c) && m in FallbackTypes(blobs) && AlwaysRecognised(utf8, c)
    ensures m in blobs && FirstLine(utf8(blobs[m])) == Preview(c)
  {
    ClassifiedShape(utf8, blobs, c);
    var r := IterationFrom([m], blobs.Keys);
    FallbackOf(blobs, r, m);
    var offered, echo := SomeEcho(utf8, c, blobs, r);
    EchoIsText(utf8, c, blobs, r, offered, echo);
  }

  /** Every payload that may become the fallback has the entry's preview as its first line. */
  ghost predicate FallbacksShow(utf8: Decoder, c: Content, blobs: Blobs) {
    forall m :: m in FallbackTypes(blobs) ==> m in blobs && FirstLine(utf8(blobs[m])) == Preview(c)
  }

  lemma ShownIsRecognised(utf8: Decoder, c: Content, blobs: Blobs)
    requires StoredAs(utf8, c, blobs) && HasText(c) && FallbacksShow(utf8, c, blobs)
    ensures AlwaysRecognised(utf8, c)
  {
    forall r, offered, echo | IsEchoOf(utf8, c, r, offered, echo) ensures Preview(echo) == Preview(c) {
      var m := EchoFromFallback(utf8, c, blobs, r, offered, echo);
    }
  }

  /** For an entry with text, the echo is recognised whatever the iteration orders if and only if
      every payload that may become the fallback has the entry's preview as its first line. */
  lemma TextRecognisedIff(utf8: Decoder, c: Content, blobs: Blobs)
    requires StoredAs(utf8, c, blobs) && HasText(c)
    ensures AlwaysRecognised(utf8, c) <==> FallbacksShow(utf8, c, blobs)
  {
    if AlwaysRecognised(utf8, c) {
      forall m | m in FallbackTypes(blobs) ensures m in blobs && FirstLine(utf8(blobs[m])) == Preview(c) {
        FallbackIsReached(utf8, c, blobs, m);
      }
    }
    if FallbacksShow(utf8, c, blobs) {
      ShownIsRecognised(utf8, c, blobs);
    }
  }

  /** A text entry that holds a plain payload, or a single payload, is always recognised. */
  lemma TextIsRecognised(utf8: Decoder, c: Content, blobs: Blobs)
    requires StoredAs(utf8, c, blobs) && c.Text? && (HoldsPlain(blobs) || |blobs| == 1)
    ensures AlwaysRecognised(utf8, c)
  {
    forall m | m in FallbackTypes(blobs) ensures m in blobs && FirstLine(utf8(blobs[m])) == Preview(c) {
      PlainText(utf8, c, blobs, m);
    }
    ShownIsRecognised(utf8, c, blobs);
  }

  lemma MixedPreview(c: Content)
    requires c.Mixed? && HasText(c) && c.images != []
    ensures Preview(c) != FirstLine(TextOf(c).text)
  {
    assert |ImageSummary(c.images[0])| > 0;
    assert |JoinSummaries(c.images)| > 0;
  }

  /** A mixed entry with a plain payload is never recognised: its echo is text and has lost the images. */
  lemma MixedIsNeverRecognised(utf8: Decoder, c: Content, blobs: Blobs, r: seq<Mime>, offered: seq<Mime>, echo: Content)
    requires StoredAs(utf8, c, blobs) && c.Mixed? && HasText(c) && HoldsPlain(blobs)
    requires IsEchoOf(utf8, c, r, offered, echo)
    ensures echo.Text? && Preview(echo) != Preview(c)
  {
    ClassifiedShape(utf8, blobs, c);
    EchoIsText(utf8, c, blobs, r, offered, echo);
    var m := FallbackIsChosen(blobs, r);
    PlainText(utf8, c, blobs, m);
    MixedPreview(c);
  }

  // ---- The echo of an entry without text ----

  lemma {:induction false} KeepLength(table: seq<Mime>, offered: seq<Mime>)
    ensures |Keep(table, offered)| <= |table|
  {
    if table != [] {
      KeepLength(table[1..], offered);
    }
  }

  lemma EmptyWithoutMembers(s: seq<Mime>)
    ensures s == [] <==> forall m :: m !in s
  {
    if s != [] {
      assert s[0] in s;
    }
  }

  lemma ImagesAreAllPicked(offered: seq<Mime>)
    requires forall m :: m in offered ==> m in SUPPORTED_BINARY_MIMES
    ensures forall m :: m in Pick(offered) <==> m in offered
  {
    TablesAreClassified();
    KeepMembers(PREFERRED_TEXT_MIMES, offered);
    OtherTextMembers(offered);
    KeepMembers(SUPPORTED_BINARY_MIMES, offered);
    KeepLength(SUPPORTED_BINARY_MIMES, offered);
    EmptyWithoutMembers(Keep(PREFERRED_TEXT_MIMES, offered));
    EmptyWithoutMembers(OtherText(offered));
  }

  lemma NoTextTypes(utf8: Decoder, c: Content, blobs: Blobs)
    requires StoredAs(utf8, c, blobs) && !HasText(c) && forall m :: m in blobs ==> Eligible(m)
    ensures Representations(c) == blobs && TextBlobs(blobs) == map[]
    ensures forall m :: m in blobs ==> m in SUPPORTED_BINARY_MIMES
  {
    ClassifiedShape(utf8, blobs, c);
    forall m | m in blobs ensures !IsTextMime(m) {
      assert IsTextMime(m) ==> m in TextBlobs(blobs);
    }
  }

  /** The echo of an entry made of supported images is the very same content. */
  lemma ImagesEchoExactly(utf8: Decoder, c: Content, blobs: Blobs, r: seq<Mime>, offered: seq<Mime>, echo: Content)
    requires StoredAs(utf8, c, blobs) && !HasText(c) && forall m :: m in blobs ==> Eligible(m)
    requires IsEchoOf(utf8, c, r, offered, echo)
    ensures echo == c
  {
    NoTextTypes(utf8, c, blobs);
    IterationKeys(offered, blobs);
    ImagesAreAllPicked(offered);
    AllEchoed(blobs, offered);
    assert UnlistedText(blobs) == {};
    ClassifiedOnce(utf8, blobs, c, echo);
  }

  lemma AllEchoed(blobs: Blobs, offered: seq<Mime>)
    requires Grouped(blobs) && forall m :: m in blobs ==> m in Pick(offered)
    ensures EchoBlobs(blobs, offered) == blobs
  {
  }

  lemma ImagesAreRecognised(utf8: Decoder, c: Content, blobs: Blobs)
    requires StoredAs(utf8, c, blobs) && !HasText(c) && forall m :: m in blobs ==> Eligible(m)
    ensures AlwaysRecognised(utf8, c)
  {
    forall r, offered, echo | IsEchoOf(utf8, c, r, offered, echo) ensures Preview(echo) == Preview(c) {
      ImagesEchoExactly(utf8, c, blobs, r, offered, echo);
    }
  }

  lemma ClassifiedOnce(utf8: Decoder, blobs: Blobs, a: Content, b: Content)
    requires Classified(utf8, blobs, a) && Classified(utf8, blobs, b) && |UnlistedText(blobs)| <= 1
    ensures a == b
  {
    var o1, t1 :|
      IsIteration(o1, blobs) && IsIteration(t1, TextBlobs(blobs)) && FromBlobs(utf8, blobs, o1, t1) == Some(a);
    var o2, t2 :|
      IsIteration(o2, blobs) && IsIteration(t2, TextBlobs(blobs)) && FromBlobs(utf8, blobs, o2, t2) == Some(b);
    ListedIsCanonical(utf8, blobs, o1, t1, o2, t2);
  }

  // ---- Echo of an echo ----

  lemma SamePicks(offered: seq<Mime>, again: seq<Mime>)
    requires forall a :: a in TEXT_ALIASES ==> a in offered && a in again
    requires forall m :: m in Pick(offered) ==> m in again
    requires forall m :: m in again ==> m in offered
    ensures Pick(again) == Pick(offered)
  {
    AliasesArePicked(offered);
    AliasesArePicked(again);
    KeepStable(PREFERRED_TEXT_MIMES, offered, again, MAX_MIMES_PER_SELECTION);
  }

  lemma SameEcho(p: Blobs, p2: Blobs, offered: seq<Mime>, offered2: seq<Mime>)
    requires Pick(offered2) == Pick(offered)
    requires forall m :: m in Pick(offered) ==> m in p && m in p2 && p2[m] == p[m]
    ensures EchoBlobs(p2, offered2) == EchoBlobs(p, offered)
  {
  }

  lemma TextEchoTwice(c2: Content, p: Blobs, offered: seq<Mime>, r2: seq<Mime>, offered2: seq<Mime>)
    requires Grouped(p) && IsIteration(offered, p) && forall a :: a in TEXT_ALIASES ==> a in p
    requires Representations(c2) == EchoBlobs(p, offered) && HasText(c2)
    requires IsIteration(r2, Representations(c2)) && IsIteration(offered2, Published(c2, r2))
    ensures EchoBlobs(Published(c2, r2), offered2) == EchoBlobs(p, offered)
  {
    var e, p2 := EchoBlobs(p, offered), Published(c2, r2);
    EchoBlobsShape(p, offered);
    PublishedShape(c2, e, r2);
    IterationKeys(offered, p);
    IterationKeys(offered2, p2);
    SamePicks(offered, offered2);
    SameEcho(p, p2, offered, offered2);
  }

  /** Taking the echo of an echo changes no byte more, even if the first fallback was arbitrary. */
  lemma EchoIsIdempotent(
    utf8: Decoder, c: Content, blobs: Blobs, r: seq<Mime>, offered: seq<Mime>, echo: Content,
    r2: seq<Mime>, offered2: seq<Mime>, echo2: Content)
    requires StoredAs(utf8, c, blobs) && forall m :: m in blobs ==> Eligible(m)
    requires IsEchoOf(utf8, c, r, offered, echo) && IsEchoOf(utf8, echo, r2, offered2, echo2)
    ensures Representations(echo2) == Representations(echo)
  {
    if HasText(c) {
      TextEchoIdempotent(utf8, c, blobs, r, offered, echo, r2, offered2, echo2);
    } else {
      ImagesEchoExactly(utf8, c, blobs, r, offered, echo);
      ImagesEchoExactly(utf8, c, blobs, r2, offered2, echo2);
    }
  }

  lemma TextEchoIdempotent(
    utf8: Decoder, c: Content, blobs: Blobs, r: seq<Mime>, offered: seq<Mime>, echo: Content,
    r2: seq<Mime>, offered2: seq<Mime>, echo2: Content)
    requires StoredAs(utf8, c, blobs) && HasText(c)
    requires IsEchoOf(utf8, c, r, offered, echo) && IsEchoOf(utf8, echo, r2, offered2, echo2)
    ensures Representations(echo2) == Representations(echo)
  {
    EchoIsText(utf8, c, blobs, r, offered, echo);
    EchoBlobsShape(Published(c, r), offered);
    TextEchoTwice(echo, Published(c, r), offered, r2, offered2);
    ClassifiedShape(utf8, EchoBlobs(Published(c, r), offered), echo2);
  }
}
