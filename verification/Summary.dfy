/** What the UI is told of an entry: its variant and its row, from the blobs of the copy alone. */
module Summaries {
  import opened Config
  import opened Seqs
  import opened Mimes
  import opened Contents
  import opened Histories
  import opened Snapshots
  import opened Drains
  import opened AppStates
  import opened EventLoops
  import opened Mirrors
  import opened Echoes
  import opened Storage

  // ---- The variant ----

  predicate IsImageBlob(blobs: Blobs, m: Mime) {
    m in blobs && blobs[m] != [] && !IsTextMime(m)
  }

  function ImageTypes(blobs: Blobs, order: seq<Mime>): set<Mime> {
    set m | m in order && IsImageBlob(blobs, m)
  }

  lemma ImageTypesSnoc(blobs: Blobs, front: seq<Mime>, last: Mime)
    requires last !in front
    ensures ImageTypes(blobs, front + [last]) ==
            ImageTypes(blobs, front) + if IsImageBlob(blobs, last) then {last} else {}
    ensures last !in ImageTypes(blobs, front)
  {
  }

  lemma {:induction false} ImageListLength(blobs: Blobs, order: seq<Mime>)
    requires NoDup(order) && forall m :: m in order ==> m in blobs
    ensures |ImageList(blobs, order)| == |ImageTypes(blobs, order)|
  {
    if order == [] {
      assert ImageTypes(blobs, order) == {};
    } else {
      var front, last := order[..|order| - 1], order[|order| - 1];
      ImageListLength(blobs, front);
      assert order == front + [last];
      ImageTypesSnoc(blobs, front, last);
    }
  }

  lemma ImagesCounted(blobs: Blobs, order: seq<Mime>)
    requires IsIteration(order, blobs) && forall m :: m in order ==> m in blobs
    ensures |Sort(ImageList(blobs, order), ImageLe)| == |ImageBlobs(blobs)|
  {
    IterationKeys(order, blobs);
    ImageListLength(blobs, order);
    assert ImageTypes(blobs, order) == ImageBlobs(blobs).Keys;
    SortMultiset(ImageList(blobs, order), ImageLe);
    assert |multiset(Sort(ImageList(blobs, order), ImageLe))| == |multiset(ImageList(blobs, order))|;
  }

  /** What the numbers of text and of other blobs make of a copy. */
  ghost predicate VariantFor(c: Option<Content>, texts: nat, images: nat) {
    && (c == None <==> texts == 0 && images == 0)
    && (c.Some? && c.value.Text? <==> texts > 0 && images == 0)
    && (c.Some? && c.value.Image? <==> texts == 0 && images == 1)
    && (c.Some? && c.value.Mixed? <==> images > 0 && texts + images > 1)
  }

  lemma NoBlobs(blobs: Blobs)
    ensures |blobs| == 0 <==> blobs == map[]
  {
    assert |blobs| == |blobs.Keys|;
  }

  /** The variant depends on the numbers of non-empty text and other blobs alone. */
  lemma VariantIff(utf8: Decoder, blobs: Blobs, order: seq<Mime>, textOrder: seq<Mime>)
    requires IsIteration(order, blobs) && IsIteration(textOrder, TextBlobs(blobs))
    ensures VariantFor(FromBlobs(utf8, blobs, order, textOrder), |TextBlobs(blobs)|, |ImageBlobs(blobs)|)
  {
    IterationKeys(order, blobs);
    ImagesCounted(blobs, order);
    BuildTextKeeps(utf8, TextBlobs(blobs), textOrder);
    NoBlobs(TextBlobs(blobs));
  }

  // ---- The images of a content, in order ----

  /** `images` lists exactly the given blobs, sorted by type. */
  ghost predicate Lists(images: seq<ImageData>, blobs: Blobs) {
    && |images| == |blobs|
    && (forall img :: img in images <==> img.mimeType in blobs && blobs[img.mimeType] == img.bytes)
    && (forall i, j :: 0 <= i < j < |images| ==> StrLe(images[i].mimeType, images[j].mimeType))
  }

  function ImagesOf(c: Content): seq<ImageData> {
    match c
    case Text(_) => []
    case Image(i) => [i]
    case Mixed(_, images) => images
  }

  lemma SortedLists(blobs: Blobs, order: seq<Mime>)
    requires IsIteration(order, blobs) && forall m :: m in order ==> m in blobs
    ensures Lists(Sort(ImageList(blobs, order), ImageLe), ImageBlobs(blobs))
  {
    var list := ImageList(blobs, order);
    ImagesCounted(blobs, order);
    OrdersAreTotal();
    SortSorted(list, ImageLe);
    SortMultiset(list, ImageLe);
    forall img ensures img in Sort(list, ImageLe) <==>
                       img.mimeType in ImageBlobs(blobs) && ImageBlobs(blobs)[img.mimeType] == img.bytes {
      ImageListMembers(blobs, order, img);
    }
    assert forall i, j :: 0 <= i < j < |list| ==> ImageLe(Sort(list, ImageLe)[i], Sort(list, ImageLe)[j]);
  }

  // ---- The preview ----

  /** The first line: up to the first line feed, or carriage return and line feed. */
  lemma {:induction false} FirstLineIs(s: string)
    ensures var l := FirstLine(s);
            && l <= s && '\n' !in l && (forall i :: 0 <= i < |l| ==> !("\r\n" <= s[i..]))
            && (|l| == |s| || s[|l|] == '\n' || "\r\n" <= s[|l|..])
  {
    if s == "" || s[0] == '\n' || "\r\n" <= s {
      assert s[0..] == s;
    } else {
      var l, rest := FirstLine(s), FirstLine(s[1..]);
      FirstLineIs(s[1..]);
      assert s == [s[0]] + s[1..] && l == [s[0]] + rest;
      assert s[|l|..] == s[1..][|rest|..];
      forall i | 0 <= i < |l| ensures !("\r\n" <= s[i..]) {
        assert if i == 0 then s[i..] == s else s[i..] == s[1..][i - 1..];
      }
    }
  }

  /** The number that a string of decimal digits stands for. */
  function Value(s: string): int {
    if s == "" then 0 else 10 * Value(s[..|s| - 1]) + (s[|s| - 1] as int - '0' as int)
  }

  lemma {:induction false} DecimalIs(n: nat)
    ensures var s := Decimal(n);
            && s != "" && Value(s) == n && (n > 0 ==> s[0] != '0') && forall c :: c in s ==> '0' <= c <= '9'
  {
    var digit := "0123456789"[n % 10];
    assert digit as int - '0' as int == n % 10;
    if n < 10 {
      assert Decimal(n) == [digit] && [digit][..0] == "";
    } else {
      DecimalIs(n / 10);
      assert (Decimal(n / 10) + [digit])[..|Decimal(n / 10)|] == Decimal(n / 10);
    }
  }

  /** One image as "<n bytes of type>". */
  lemma OneSummary(img: ImageData)
    ensures JoinSummaries([img]) == "<" + Decimal(|img.bytes|) + " bytes of " + img.mimeType + ">"
  {
  }

  /** Several images separated by ", ". */
  lemma {:induction false} SummariesJoined(a: seq<ImageData>, b: seq<ImageData>)
    requires a != [] && b != []
    ensures JoinSummaries(a + b) == JoinSummaries(a) + ", " + JoinSummaries(b)
  {
    if |a| == 1 {
      assert (a + b)[1..] == b;
    } else {
      SummariesJoined(a[1..], b);
      assert (a + b)[1..] == a[1..] + b;
    }
  }

  /** The preview is the first line of the best text, then the images, with " + " between two parts. */
  ghost predicate Previews(preview: string, line: string, images: seq<ImageData>) {
    preview == if images == [] then line
               else if line == "" then JoinSummaries(images)
               else line + " + " + JoinSummaries(images)
  }

  lemma SummaryNotEmpty(images: seq<ImageData>)
    requires images != []
    ensures JoinSummaries(images) != ""
  {
    assert |ImageSummary(images[0])| > 0;
  }

  /** The best type: of the text types if there are any, lowest in the preference table and then smallest;
      else the smallest. */
  ghost predicate Best(m: Mime, texts: Blobs, images: Blobs) {
    if texts != map[] then m in texts && forall k :: k in texts ==> RankLe(m, k) && (Rank(m) == Rank(k) ==> StrLe(m, k))
    else m in images && forall k :: k in images ==> StrLe(m, k)
  }

  function LineOf(utf8: Decoder, texts: Blobs, m: Mime): string {
    if m in texts then FirstLine(utf8(texts[m])) else ""
  }

  /** What a content classified from blobs shows. */
  ghost predicate Shows(utf8: Decoder, blobs: Blobs, c: Content) {
    var texts, images, p := TextBlobs(blobs), ImageBlobs(blobs), PrimaryOf(c);
    && (HasText(c) <==> texts != map[])
    && Best(p, texts, images)
    && Lists(ImagesOf(c), images)
    && Previews(Preview(c), LineOf(utf8, texts, p), ImagesOf(c))
  }

  lemma AssembledParts(text: Option<TextData>, images: seq<ImageData>)
    requires text.Some? || images != []
    ensures Assemble(text, images).Some?
    ensures var c := Assemble(text, images).value;
            && ImagesOf(c) == images && (HasText(c) <==> text.Some?)
            && PrimaryOf(c) == (if text.Some? then text.value.primaryMime else images[0].mimeType)
            && Previews(Preview(c), if text.Some? then FirstLine(text.value.text) else "", images)
  {
    if images != [] {
      SummaryNotEmpty(images);
      assert |images| == 1 ==> images == [images[0]];
    }
  }

  lemma FirstIsSmallest(images: seq<ImageData>, blobs: Blobs)
    requires Lists(images, blobs) && images != []
    ensures images[0].mimeType in blobs && forall k :: k in blobs ==> StrLe(images[0].mimeType, k)
  {
    assert images[0] in images;
    forall k | k in blobs ensures StrLe(images[0].mimeType, k) {
      assert ImageData(k, blobs[k]) in images;
      StrLeTotal(k, k);
    }
  }

  lemma TextIsBest(blobs: Blobs, order: seq<Mime>)
    requires blobs != map[] && IsIteration(order, blobs)
    ensures Best(PrimaryMime(blobs, order), blobs, map[])
  {
    var p := PrimaryMime(blobs, order);
    forall k | k in blobs ensures RankLe(p, k) && (Rank(p) == Rank(k) ==> StrLe(p, k)) {
      PrimaryIsBest(blobs, order, k);
    }
  }

  lemma TextNotImage(blobs: Blobs, m: Mime)
    requires m in ImageBlobs(blobs)
    ensures m !in TextBlobs(blobs)
  {
  }

  lemma FromBlobsShows(utf8: Decoder, blobs: Blobs, order: seq<Mime>, textOrder: seq<Mime>)
    requires IsIteration(order, blobs) && IsIteration(textOrder, TextBlobs(blobs)) && NonEmpty(blobs) != map[]
    ensures var c := FromBlobs(utf8, blobs, order, textOrder); c.Some? && Shows(utf8, blobs, c.value)
  {
    IterationKeys(order, blobs);
    var texts := TextBlobs(blobs);
    var text, images := BuildText(utf8, texts, textOrder), Sort(ImageList(blobs, order), ImageLe);
    RepresentationsLossless(utf8, blobs, order, textOrder);
    BuildTextKeeps(utf8, texts, textOrder);
    SortedLists(blobs, order);
    if text.Some? || images != [] {
      AssembledParts(text, images);
      if text.Some? {
        TextIsBest(texts, textOrder);
      } else {
        FirstIsSmallest(images, ImageBlobs(blobs));
        TextNotImage(blobs, images[0].mimeType);
      }
    }
  }

  // ---- The row ----

  /** The kind, from the numbers of text and of other blobs. */
  ghost predicate KindFor(kind: EntryKind, texts: nat, images: nat) {
    && (kind == TextKind <==> images == 0)
    && (kind == ImageKind <==> texts == 0 && images == 1)
  }

  /** The milliseconds of a time that 64 bits hold; zero before the epoch. */
  ghost predicate MillisFor(millis: nat, timestamp: int) {
    && (0 <= timestamp < 0x1_0000_0000_0000_0000 ==> millis == timestamp)
    && (timestamp < 0 ==> millis == 0)
  }

  /** The first `PREVIEW_CHARS` characters. */
  ghost predicate Cut(short: string, full: string) {
    short <= full && |short| == if |full| < PREVIEW_CHARS then |full| else PREVIEW_CHARS
  }

  /** The row of an entry, from the blobs of its copy: id, time, variant, best type, the beginning of the
      preview, and whether there is text. */
  ghost predicate RowFor(
    row: Summary, utf8: Decoder, e: Entry, blobs: Blobs, pictures: seq<ImageData>, preview: string)
  {
    var texts, images := TextBlobs(blobs), ImageBlobs(blobs);
    && row.id == e.id && MillisFor(row.timestampMillis, e.timestamp)
    && KindFor(row.kind, |texts|, |images|) && (row.hasText <==> texts != map[])
    && Best(row.primaryMime, texts, images)
    && Lists(pictures, images) && Previews(preview, LineOf(utf8, texts, row.primaryMime), pictures)
    && Cut(row.preview, preview)
  }

  lemma KindOf(c: Content, row: Summary, texts: nat, images: nat)
    requires VariantFor(Some(c), texts, images)
    requires row.kind == if c.Text? then TextKind else if c.Image? then ImageKind else MixedKind
    ensures KindFor(row.kind, texts, images)
  {
  }

  lemma RowFields(e: Entry)
    ensures var row := SummaryOf(e);
            && row.id == e.id && MillisFor(row.timestampMillis, e.timestamp)
            && row.kind == (if e.content.Text? then TextKind else if e.content.Image? then ImageKind else MixedKind)
            && row.hasText == HasText(e.content) && row.primaryMime == PrimaryOf(e.content)
            && Cut(row.preview, Preview(e.content))
  {
  }

  lemma StoredShows(utf8: Decoder, c: Content, blobs: Blobs)
    requires StoredAs(utf8, c, blobs)
    ensures Shows(utf8, blobs, c) && VariantFor(Some(c), |TextBlobs(blobs)|, |ImageBlobs(blobs)|)
  {
    var order, textOrder :|
      IsIteration(order, blobs) && IsIteration(textOrder, TextBlobs(blobs)) &&
      FromBlobs(utf8, blobs, order, textOrder) == Some(c);
    assert NonEmpty(blobs) == blobs;
    FromBlobsShows(utf8, blobs, order, textOrder);
    VariantIff(utf8, blobs, order, textOrder);
  }

  lemma RowIs(utf8: Decoder, e: Entry, blobs: Blobs)
    requires StoredAs(utf8, e.content, blobs)
    ensures RowFor(SummaryOf(e), utf8, e, blobs, ImagesOf(e.content), Preview(e.content))
  {
    StoredShows(utf8, e.content, blobs);
    RowFields(e);
    KindOf(e.content, SummaryOf(e), |TextBlobs(blobs)|, |ImageBlobs(blobs)|);
  }

  // ---- Every row, over every run ----

  ghost predicate IsRow(utf8: Decoder, row: Summary) {
    exists e: Entry ::
      ContentStored(utf8, e.content) &&
      RowFor(row, utf8, e, Representations(e.content), ImagesOf(e.content), Preview(e.content))
  }

  lemma {:induction false} CreatedStored(utf8: Decoder, h: History, ops: seq<Op>)
    requires forall op :: op in ops ==> op.Store? && ContentStored(utf8, op.content)
    ensures EntriesStored(utf8, Created(h, ops))
  {
    if ops != [] {
      CreatedStored(utf8, h, ops[..|ops| - 1]);
    }
  }

  lemma FreshStored(env: Env, s: Loop, i: Input)
    requires ValidInput(i) && AppStored(env.utf8, s.app)
    ensures EntriesStored(env.utf8, Fresh(env, s, i))
  {
    var queue := HandleAll(s.app, i.events).pending;
    HandleAllEligible(s.app, i.events);
    GatherStored(queue);
    GatherCommittable(queue);
    StoreOpsStored(env.utf8, i.oracle, Gather(queue).order, Gather(queue));
    CreatedStored(env.utf8, s.app.history, TurnOps(env, s, i));
  }

  lemma RowsAreRows(utf8: Decoder, entries: seq<Entry>)
    requires EntriesStored(utf8, entries)
    ensures forall r :: r in Rows(entries) ==> IsRow(utf8, r)
  {
    forall r | r in Rows(entries) ensures IsRow(utf8, r) {
      var k :| 0 <= k < |entries| && Rows(entries)[k] == r;
      assert entries[k] in entries;
      RowIs(utf8, entries[k], Representations(entries[k].content));
    }
  }

  lemma AnnouncedAreFresh(s: Loop, t: Loop, made: seq<Entry>, announced: seq<Entry>)
    requires TurnEffect(s, t, made, announced)
    ensures forall e :: e in announced ==> e in made
  {
  }

  lemma TurnRows(env: Env, s: Loop, i: Input)
    requires ValidInput(i) && HistoryOk(s.app.history) && AppStored(env.utf8, s.app)
    requires forall r :: r in s.events ==> IsRow(env.utf8, r)
    ensures forall r :: r in Iterate(env, s, i).events ==> IsRow(env.utf8, r)
  {
    var announced := TurnHasEffect(env, s, i);
    FreshStored(env, s, i);
    AnnouncedAreFresh(s, Examined(env, s, i), Fresh(env, s, i), announced);
    RowsAreRows(env.utf8, announced);
    ServeAllKeeps(env, Examined(env, s, i), i.requests);
  }

  /** Over every run, every row the UI is told of describes a copy: it is the row of an entry classified from
      the blobs it was read from. */
  lemma {:induction false} RunRows(env: Env, inputs: seq<Input>)
    requires forall i :: i in inputs ==> ValidInput(i)
    ensures forall r :: r in RunLoop(env, BOOT, inputs).events ==> IsRow(env.utf8, r)
  {
    if inputs != [] {
      var front, i := inputs[..|inputs| - 1], inputs[|inputs| - 1];
      RunRows(env, front);
      RunMirrors(env, front);
      RunStores(env, front);
      TurnRows(env, RunLoop(env, BOOT, front), i);
    }
  }
}
