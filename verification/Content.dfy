/** `ClipboardContent` of `src/clipboard/history.rs`: classifying the blobs of one copy, and
    flattening a stored copy back into blobs.

    A `HashMap` yields its entries in an arbitrary order, so every function that iterates over
    one takes that order as an argument, and `utf8` stands for `String::from_utf8_lossy`. */
module Contents {
  import opened Config
  import opened Seqs
  import opened Mimes

  type Decoder = Bytes -> string
  type Blobs = map<Mime, Bytes>

  datatype TextData = TextData(
    text: string, html: Option<string>, primaryMime: Mime, offeredMimes: seq<Mime>, blobs: Blobs)

  datatype ImageData = ImageData(mimeType: Mime, bytes: Bytes)

  datatype Content =
    | Text(t: TextData)
    | Image(i: ImageData)
    | Mixed(text: Option<TextData>, images: seq<ImageData>)

  /** `order` lists every key of `m` once. */
  ghost predicate IsIteration<V>(order: seq<Mime>, m: map<Mime, V>) {
    multiset(order) == multiset(m.Keys)
  }

  lemma RepeatedElement(s: seq<Mime>, i: nat, j: nat)
    requires i < j < |s| && s[i] == s[j]
    ensures multiset(s)[s[i]] >= 2
  {
    assert s == s[..i] + [s[i]] + s[i + 1..j] + [s[j]] + s[j + 1..];
  }

  lemma IterationKeys<V>(order: seq<Mime>, m: map<Mime, V>)
    requires IsIteration(order, m)
    ensures forall k :: k in order <==> k in m
    ensures NoDup(order) && |order| == |m|
  {
    assert forall k :: k in order <==> k in multiset(order);
    assert |multiset(order)| == |order| && |multiset(m.Keys)| == |m.Keys|;
    forall i, j | 0 <= i < j < |order| && order[i] == order[j] ensures multiset(order)[order[i]] >= 2 {
      RepeatedElement(order, i, j);
    }
  }

  // ---- Orders on MIME types ----

  /** `str` comparison: lexicographic by code point. */
  predicate StrLe(a: string, b: string) {
    if a == "" then true
    else if b == "" then false
    else if a[0] != b[0] then a[0] < b[0]
    else StrLe(a[1..], b[1..])
  }

  lemma {:induction false} StrLeTotal(a: string, b: string)
    ensures StrLe(a, b) || StrLe(b, a)
    ensures StrLe(a, b) && StrLe(b, a) ==> a == b
  {
    if a != "" && b != "" && a[0] == b[0] {
      StrLeTotal(a[1..], b[1..]);
      assert a == [a[0]] + a[1..] && b == [b[0]] + b[1..];
    }
  }

  lemma {:induction false} StrLeTransitive(a: string, b: string, c: string)
    requires StrLe(a, b) && StrLe(b, c)
    ensures StrLe(a, c)
  {
    if a != "" && b != "" && c != "" && a[0] == b[0] == c[0] {
      StrLeTransitive(a[1..], b[1..], c[1..]);
    }
  }

  /** The strings agree up to `k`, where `a` ends or has the smaller character. */
  ghost predicate LessAt(a: string, b: string, k: nat) {
    k <= |a| && k <= |b| && a[..k] == b[..k] && (k == |a| || (k < |b| && a[k] < b[k]))
  }

  lemma LessLater(a: string, b: string, k: nat)
    requires a != "" && b != "" && a[0] == b[0]
    ensures LessAt(a, b, k + 1) <==> LessAt(a[1..], b[1..], k)
  {
    if k + 1 <= |a| && k + 1 <= |b| {
      assert a[..k + 1] == [a[0]] + a[1..][..k] && b[..k + 1] == [b[0]] + b[1..][..k];
    }
  }

  lemma LessStart(a: string, b: string, k: nat)
    requires LessAt(a, b, k)
    ensures k > 0 ==> a != "" && b != "" && a[0] == b[0]
  {
    if k > 0 {
      assert a[..k][0] == a[0] && b[..k][0] == b[0];
    }
  }

  /** `str` comparison is lexicographic. */
  lemma {:induction false} StrLeIff(a: string, b: string)
    ensures StrLe(a, b) <==> exists k: nat :: LessAt(a, b, k)
  {
    if a == "" || b == "" || a[0] != b[0] {
      assert StrLe(a, b) ==> LessAt(a, b, 0);
      forall k: nat | LessAt(a, b, k) ensures StrLe(a, b) {
        LessStart(a, b, k);
      }
    } else {
      StrLeIff(a[1..], b[1..]);
      forall k: nat ensures LessAt(a, b, k + 1) <==> LessAt(a[1..], b[1..], k) {
        LessLater(a, b, k);
      }
      assert LessAt(a, b, 0) <==> false;
      if k: nat :| LessAt(a, b, k) {
        assert LessAt(a[1..], b[1..], k - 1);
      }
      if k: nat :| LessAt(a[1..], b[1..], k) {
        assert LessAt(a, b, k + 1);
      }
    }
  }

  /** Images sort by MIME type. */
  predicate ImageLe(a: ImageData, b: ImageData) {
    StrLe(a.mimeType, b.mimeType)
  }

  /** Position in the preference table; unlisted types share `usize::MAX`. */
  function Rank(m: Mime): nat {
    if m in PREFERRED_TEXT_MIMES then IndexOf(PREFERRED_TEXT_MIMES, m) else 0xFFFF_FFFF_FFFF_FFFF
  }

  predicate RankLe(a: Mime, b: Mime) {
    Rank(a) <= Rank(b)
  }

  lemma OrdersAreTotal()
    ensures TotalPreorder(ImageLe) && TotalPreorder(RankLe)
  {
    forall a, b ensures ImageLe(a, b) || ImageLe(b, a) {
      StrLeTotal(a.mimeType, b.mimeType);
    }
    forall a, b, c | ImageLe(a, b) && ImageLe(b, c) ensures ImageLe(a, c) {
      StrLeTransitive(a.mimeType, b.mimeType, c.mimeType);
    }
  }

  // ---- Classification ----

  function TextBlobs(blobs: Blobs): Blobs {
    map m | m in blobs && blobs[m] != [] && IsTextMime(m) :: blobs[m]
  }

  function ImageBlobs(blobs: Blobs): Blobs {
    map m | m in blobs && blobs[m] != [] && !IsTextMime(m) :: blobs[m]
  }

  function NonEmpty(blobs: Blobs): Blobs {
    map m | m in blobs && blobs[m] != [] :: blobs[m]
  }

  /** The non-text, non-empty blobs in iteration order. */
  function ImageList(blobs: Blobs, order: seq<Mime>): seq<ImageData>
    requires forall m :: m in order ==> m in blobs
  {
    if order == [] then []
    else
      var m, r := order[|order| - 1], ImageList(blobs, order[..|order| - 1]);
      if blobs[m] != [] && !IsTextMime(m) then r + [ImageData(m, blobs[m])] else r
  }

  /** The smallest element (`sort()` then `first()`). */
  function Least(s: seq<Mime>): (r: Mime)
    requires s != []
    ensures r in s
    ensures forall m :: m in s ==> StrLe(r, m)
  {
    StrLeTotal(s[0], s[0]);
    if |s| == 1 then s[0]
    else
      var r := Least(s[1..]);
      StrLeTotal(s[0], r);
      assert forall m :: m in s ==> m == s[0] || m in s[1..];
      if StrLe(s[0], r) then
        assert forall m :: m in s[1..] ==> StrLe(s[0], m) by {
          forall m | m in s[1..] ensures StrLe(s[0], m) { StrLeTransitive(s[0], r, m); }
        }
        s[0]
      else r
  }

  function FirstPreferred(table: seq<Mime>, blobs: Blobs): Option<Mime> {
    if table == [] then None
    else if table[0] in blobs then Some(table[0])
    else FirstPreferred(table[1..], blobs)
  }

  function PrimaryMime(blobs: Blobs, order: seq<Mime>): (r: Mime)
    requires blobs != map[] && IsIteration(order, blobs)
    ensures r in blobs
  {
    IterationKeys(order, blobs);
    FirstPreferredMembers(PREFERRED_TEXT_MIMES, blobs);
    match FirstPreferred(PREFERRED_TEXT_MIMES, blobs)
    case Some(m) => m
    case None => Least(order)
  }

  lemma {:induction false} FirstPreferredMembers(table: seq<Mime>, blobs: Blobs)
    ensures match FirstPreferred(table, blobs)
            case Some(m) => m in table && m in blobs
            case None => forall p :: p in table ==> p !in blobs
  {
    if table != [] {
      FirstPreferredMembers(table[1..], blobs);
    }
  }

  function BuildText(utf8: Decoder, blobs: Blobs, order: seq<Mime>): Option<TextData>
    requires IsIteration(order, blobs)
  {
    if blobs == map[] then None
    else
      var primary := PrimaryMime(blobs, order);
      var html :=
        if HTML in blobs && blobs[primary] != blobs[HTML] && primary != HTML then Some(utf8(blobs[HTML])) else None;
      Some(TextData(utf8(blobs[primary]), html, primary, Sort(order, RankLe), blobs))
  }

  /** The variant for the given text and sorted images. */
  function Assemble(text: Option<TextData>, images: seq<ImageData>): Option<Content> {
    if text == None && images == [] then None
    else if text.Some? && images == [] then Some(Text(text.value))
    else if text == None && |images| == 1 then Some(Image(images[0]))
    else Some(Mixed(text, images))
  }

  /** `order` is the iteration order of the given map, `textOrder` that of the text blobs among it. */
  function FromBlobs(utf8: Decoder, blobs: Blobs, order: seq<Mime>, textOrder: seq<Mime>): Option<Content>
    requires IsIteration(order, blobs) && IsIteration(textOrder, TextBlobs(blobs))
  {
    IterationKeys(order, blobs);
    Assemble(BuildText(utf8, TextBlobs(blobs), textOrder), Sort(ImageList(blobs, order), ImageLe))
  }

  /** The loop of `from_blobs` over the map's entries. */
  method SplitBlobs(blobs: Blobs, order: seq<Mime>) returns (textBlobs: Blobs, imageBlobs: seq<ImageData>)
    requires IsIteration(order, blobs)
    ensures textBlobs == TextBlobs(blobs)
    ensures forall m :: m in order ==> m in blobs
    ensures imageBlobs == ImageList(blobs, order)
  {
    IterationKeys(order, blobs);
    textBlobs, imageBlobs := map[], [];
    for i := 0 to |order|
      invariant forall m :: m in textBlobs <==> m in order[..i] && blobs[m] != [] && IsTextMime(m)
      invariant forall m :: m in textBlobs ==> textBlobs[m] == blobs[m]
      invariant imageBlobs == ImageList(blobs, order[..i])
    {
      var mime := order[i];
      var bytes := blobs[mime];
      assert order[..i + 1] == order[..i] + [mime] && order[..i + 1][..i] == order[..i];
      if bytes != [] {
        if IsTextMime(mime) {
          textBlobs := textBlobs[mime := bytes];
        } else {
          imageBlobs := imageBlobs + [ImageData(mime, bytes)];
        }
      }
    }
    assert order[..|order|] == order;
  }

  /** `from_blobs` itself: split in a loop, sort the images, choose the variant. */
  method Classify(utf8: Decoder, blobs: Blobs, order: seq<Mime>, textOrder: seq<Mime>) returns (r: Option<Content>)
    requires IsIteration(order, blobs) && IsIteration(textOrder, TextBlobs(blobs))
    ensures r == FromBlobs(utf8, blobs, order, textOrder)
  {
    var textBlobs, imageBlobs := SplitBlobs(blobs, order);
    if textBlobs == map[] && imageBlobs == [] {
      return None;
    }
    var text := BuildText(utf8, textBlobs, textOrder);
    var images := Sort(imageBlobs, ImageLe);
    if text.Some? && |images| == 0 {
      r := Some(Text(text.value));
    } else if text == None && |images| == 1 {
      r := Some(Image(images[0]));
    } else {
      SortMultiset(imageBlobs, ImageLe);
      assert imageBlobs != [] ==> imageBlobs[0] in images;
      r := Some(Mixed(text, images));
    }
  }

  // ---- Accessors ----

  predicate HasText(c: Content) {
    c.Text? || (c.Mixed? && c.text.Some?)
  }

  function ImagesMap(images: seq<ImageData>): Blobs {
    if images == [] then map[]
    else
      var last := images[|images| - 1];
      ImagesMap(images[..|images| - 1])[last.mimeType := last.bytes]
  }

  function Representations(c: Content): Blobs {
    match c
    case Text(t) => t.blobs
    case Image(i) => map[i.mimeType := i.bytes]
    case Mixed(text, images) => (if text.Some? then text.value.blobs else map[]) + ImagesMap(images)
  }

  /** `representations` fills its map one image at a time. */
  method BuildRepresentations(c: Content) returns (r: Blobs)
    ensures r == Representations(c)
  {
    match c
    case Text(t) => r := t.blobs;
    case Image(i) => r := map[i.mimeType := i.bytes];
    case Mixed(text, images) =>
      var base := if text.Some? then text.value.blobs else map[];
      r := base;
      for k := 0 to |images|
        invariant r == base + ImagesMap(images[..k])
      {
        assert images[..k + 1][..k] == images[..k];
        r := r[images[k].mimeType := images[k].bytes];
      }
      assert images[..|images|] == images;
  }

  function PrimaryOf(c: Content): Mime {
    match c
    case Text(t) => t.primaryMime
    case Image(i) => i.mimeType
    case Mixed(text, images) =>
      if text.Some? then text.value.primaryMime
      else if images != [] then images[0].mimeType
      else "application/octet-stream"
  }

  /** `text.lines().next().unwrap_or("")`. */
  function FirstLine(s: string): string {
    if s == "" || s[0] == '\n' || "\r\n" <= s then ""
    else [s[0]] + FirstLine(s[1..])
  }

  function Decimal(n: nat): string {
    var digit := ["0123456789"[n % 10]];
    if n < 10 then digit else Decimal(n / 10) + digit
  }

  function ImageSummary(i: ImageData): string {
    "<" + Decimal(|i.bytes|) + " bytes of " + i.mimeType + ">"
  }

  /** The image summaries, joined with ", ". */
  function JoinSummaries(images: seq<ImageData>): string {
    if images == [] then ""
    else if |images| == 1 then ImageSummary(images[0])
    else ImageSummary(images[0]) + ", " + JoinSummaries(images[1..])
  }

  function Preview(c: Content): string {
    match c
    case Text(t) => FirstLine(t.text)
    case Image(i) => ImageSummary(i)
    case Mixed(text, images) =>
      var textPart := if text.Some? then FirstLine(text.value.text) else "";
      var imagePart := JoinSummaries(images);
      if textPart == "" then imagePart
      else if imagePart == "" then textPart
      else textPart + " + " + imagePart
  }

  // ---- Classification loses nothing ----

  /** How often an image occurs in the list of an iteration: as often as its type, if the map holds it. */
  function Occurrences(blobs: Blobs, order: seq<Mime>, img: ImageData): nat {
    if img.mimeType in blobs && blobs[img.mimeType] == img.bytes != [] && !IsTextMime(img.mimeType)
    then multiset(order)[img.mimeType] else 0
  }

  lemma OccurrencesSnoc(blobs: Blobs, front: seq<Mime>, m: Mime, img: ImageData)
    requires m in blobs
    ensures Occurrences(blobs, front + [m], img) ==
            Occurrences(blobs, front, img) +
            if blobs[m] != [] && !IsTextMime(m) && img == ImageData(m, blobs[m]) then 1 else 0
  {
    assert multiset(front + [m]) == multiset(front) + multiset{m};
  }

  lemma {:induction false} ImageListCount(blobs: Blobs, order: seq<Mime>, img: ImageData)
    requires forall m :: m in order ==> m in blobs
    ensures multiset(ImageList(blobs, order))[img] == Occurrences(blobs, order, img)
  {
    if order != [] {
      var front, m := order[..|order| - 1], order[|order| - 1];
      ImageListCount(blobs, front, img);
      OccurrencesSnoc(blobs, front, m, img);
      assert order == front + [m];
    }
  }

  /** The images hold exactly the non-text blobs. */
  lemma ImageListMembers(blobs: Blobs, order: seq<Mime>, img: ImageData)
    requires IsIteration(order, blobs)
    requires forall m :: m in order ==> m in blobs
    ensures img in ImageList(blobs, order) <==>
            img.mimeType in ImageBlobs(blobs) && blobs[img.mimeType] == img.bytes
  {
    ImageListCount(blobs, order, img);
    assert img in ImageList(blobs, order) <==> img in multiset(ImageList(blobs, order));
    assert img.mimeType in blobs ==> multiset(order)[img.mimeType] == 1;
  }

  lemma {:induction false} ImagesMapOf(images: seq<ImageData>, blobs: Blobs)
    requires forall i :: i in images ==> i.mimeType in blobs && blobs[i.mimeType] == i.bytes
    ensures forall m :: m in ImagesMap(images) <==> exists i :: i in images && i.mimeType == m
    ensures forall m :: m in ImagesMap(images) ==> m in blobs && ImagesMap(images)[m] == blobs[m]
  {
    if images != [] {
      var front, last := images[..|images| - 1], images[|images| - 1];
      ImagesMapOf(front, blobs);
      assert images == front + [last];
      assert forall i :: i in images <==> i in front || i == last;
    }
  }

  lemma SortedImagesMap(blobs: Blobs, order: seq<Mime>)
    requires IsIteration(order, blobs)
    requires forall m :: m in order ==> m in blobs
    ensures ImagesMap(Sort(ImageList(blobs, order), ImageLe)) == ImageBlobs(blobs)
  {
    var images := Sort(ImageList(blobs, order), ImageLe);
    SortMultiset(ImageList(blobs, order), ImageLe);
    forall img { ImageListMembers(blobs, order, img); }
    ImagesMapOf(images, ImageBlobs(blobs));
    forall m | m in ImageBlobs(blobs) ensures m in ImagesMap(images) {
      assert ImageData(m, blobs[m]) in images;
    }
  }

  lemma AssembleRepresentations(text: Option<TextData>, images: seq<ImageData>)
    ensures Assemble(text, images) == None <==> text == None && images == []
    ensures Assemble(text, images).Some? ==>
              Representations(Assemble(text, images).value) ==
              (if text.Some? then text.value.blobs else map[]) + ImagesMap(images)
  {
    if |images| == 1 {
      assert images[..0] == [] && ImagesMap([]) == map[];
    }
  }

  lemma BuildTextKeeps(utf8: Decoder, blobs: Blobs, order: seq<Mime>)
    requires IsIteration(order, blobs)
    ensures match BuildText(utf8, blobs, order)
            case None => blobs == map[]
            case Some(t) =>
              && blobs != map[] && t.blobs == blobs && t.offeredMimes == Sort(order, RankLe)
              && t.primaryMime == PrimaryMime(blobs, order) && t.text == utf8(blobs[t.primaryMime])
  {
  }

  lemma {:induction false} FirstPreferredIsFirst(table: seq<Mime>, blobs: Blobs, m: Mime)
    requires m in table && m in blobs
    ensures FirstPreferred(table, blobs).Some?
    ensures IndexOf(table, FirstPreferred(table, blobs).value) <= IndexOf(table, m)
  {
    if table[0] !in blobs {
      FirstPreferredIsFirst(table[1..], blobs, m);
      FirstPreferredMembers(table[1..], blobs);
    }
  }

  /** The text of a copy is decoded from its best type: lowest in the preference table, and among
      unlisted types the smallest name. */
  lemma PrimaryIsBest(blobs: Blobs, order: seq<Mime>, m: Mime)
    requires blobs != map[] && IsIteration(order, blobs) && m in blobs
    ensures var p := PrimaryMime(blobs, order); RankLe(p, m) && (Rank(p) == Rank(m) ==> StrLe(p, m))
  {
    var p := PrimaryMime(blobs, order);
    IterationKeys(order, blobs);
    FirstPreferredMembers(PREFERRED_TEXT_MIMES, blobs);
    StrLeTotal(p, p);
    if m in PREFERRED_TEXT_MIMES {
      FirstPreferredIsFirst(PREFERRED_TEXT_MIMES, blobs, m);
      if Rank(p) == Rank(m) {
        RankInjective(m, p);
      }
    }
  }

  /** The offered types are all text types of the copy, in preference order. */
  lemma OfferedInOrder(utf8: Decoder, blobs: Blobs, order: seq<Mime>)
    requires blobs != map[] && IsIteration(order, blobs)
    ensures var t := BuildText(utf8, blobs, order).value;
            IsIteration(t.offeredMimes, blobs) && SortedBy(t.offeredMimes, RankLe)
  {
    OrdersAreTotal();
    SortMultiset(order, RankLe);
    SortSorted(order, RankLe);
  }

  lemma SplitNonEmpty(blobs: Blobs)
    ensures NonEmpty(blobs) == TextBlobs(blobs) + ImageBlobs(blobs)
  {
  }

  lemma ImagesMapEmpty(images: seq<ImageData>)
    ensures ImagesMap(images) == map[] <==> images == []
  {
    if images != [] {
      assert images[|images| - 1].mimeType in ImagesMap(images);
    }
  }

  /** Flattening what was classified gives back every non-empty blob, byte for byte. */
  lemma RepresentationsLossless(utf8: Decoder, blobs: Blobs, order: seq<Mime>, textOrder: seq<Mime>)
    requires IsIteration(order, blobs) && IsIteration(textOrder, TextBlobs(blobs))
    ensures var c := FromBlobs(utf8, blobs, order, textOrder);
            if NonEmpty(blobs) == map[] then c == None else c.Some? && Representations(c.value) == NonEmpty(blobs)
  {
    IterationKeys(order, blobs);
    SortedImagesMap(blobs, order);
    BuildTextKeeps(utf8, TextBlobs(blobs), textOrder);
    SplitNonEmpty(blobs);
    var text, images := BuildText(utf8, TextBlobs(blobs), textOrder), Sort(ImageList(blobs, order), ImageLe);
    AssembleRepresentations(text, images);
    ImagesMapEmpty(images);
    UnionEmpty(TextBlobs(blobs), ImageBlobs(blobs));
  }

  /** What is stored of a copy with text tells from its own representations what is decoded: the whole primary
      one, and the HTML exactly when there is an HTML representation that is not the same bytes. */
  lemma HtmlKeptIff(utf8: Decoder, blobs: Blobs, order: seq<Mime>, textOrder: seq<Mime>)
    requires IsIteration(order, blobs) && IsIteration(textOrder, TextBlobs(blobs)) && TextBlobs(blobs) != map[]
    ensures var c := FromBlobs(utf8, blobs, order, textOrder);
            && c.Some? && HasText(c.value)
            && var t, r := (if c.value.Text? then c.value.t else c.value.text.value), Representations(c.value);
               && t.primaryMime in r && t.text == utf8(r[t.primaryMime])
               && t.html == if HTML in r && r[HTML] != r[t.primaryMime] then Some(utf8(r[HTML])) else None
  {
    RepresentationsLossless(utf8, blobs, order, textOrder);
    BuildTextKeeps(utf8, TextBlobs(blobs), textOrder);
    HtmlIsText();
  }

  lemma HtmlIsText()
    ensures IsTextMime(HTML)
  {
    assert "text/" <= HTML;
  }

  lemma UnionEmpty(a: Blobs, b: Blobs)
    ensures a + b == map[] <==> a == map[] && b == map[]
    ensures map[] + b == b
  {
    if a + b == map[] {
      assert a.Keys <= (a + b).Keys && b.Keys <= (a + b).Keys;
    }
  }

  /** Equal stored contents come from equal bytes. */
  lemma EqualContentEqualBytes(
    utf8: Decoder, a: Blobs, oa: seq<Mime>, ta: seq<Mime>, b: Blobs, ob: seq<Mime>, tb: seq<Mime>)
    requires IsIteration(oa, a) && IsIteration(ta, TextBlobs(a))
    requires IsIteration(ob, b) && IsIteration(tb, TextBlobs(b))
    requires FromBlobs(utf8, a, oa, ta) == FromBlobs(utf8, b, ob, tb)
    ensures NonEmpty(a) == NonEmpty(b)
  {
    RepresentationsLossless(utf8, a, oa, ta);
    RepresentationsLossless(utf8, b, ob, tb);
  }

  // ---- Classification and iteration order ----

  /** Text types the preference table does not list; `sort_by_key` cannot tell them apart. */
  function UnlistedText(blobs: Blobs): set<Mime> {
    set m | m in TextBlobs(blobs) && m !in PREFERRED_TEXT_MIMES
  }

  lemma RankInjective(a: Mime, b: Mime)
    requires Rank(a) == Rank(b) && a in PREFERRED_TEXT_MIMES
    ensures a == b
  {
    assert PREFERRED_TEXT_MIMES[IndexOf(PREFERRED_TEXT_MIMES, a)] == a;
  }

  lemma SortedImagesCanonical(blobs: Blobs, o1: seq<Mime>, o2: seq<Mime>)
    requires IsIteration(o1, blobs) && IsIteration(o2, blobs)
    requires forall m :: m in o1 + o2 ==> m in blobs
    ensures Sort(ImageList(blobs, o1), ImageLe) == Sort(ImageList(blobs, o2), ImageLe)
  {
    var l1, l2 := ImageList(blobs, o1), ImageList(blobs, o2);
    forall img ensures multiset(l1)[img] == multiset(l2)[img] {
      ImageListCount(blobs, o1, img);
      ImageListCount(blobs, o2, img);
    }
    assert multiset(l1) == multiset(l2);
    OrdersAreTotal();
    SortMultiset(l1, ImageLe);
    SortMultiset(l2, ImageLe);
    SortSorted(l1, ImageLe);
    SortSorted(l2, ImageLe);
    forall a, b | a in l1 && b in l1 && ImageLe(a, b) && ImageLe(b, a) ensures a == b {
      StrLeTotal(a.mimeType, b.mimeType);
      ImageListMembers(blobs, o1, a);
      ImageListMembers(blobs, o1, b);
    }
    SortedUnique(Sort(l1, ImageLe), Sort(l2, ImageLe), ImageLe);
  }

  lemma RankTie(blobs: Blobs, a: Mime, b: Mime)
    requires a in TextBlobs(blobs) && b in TextBlobs(blobs) && Rank(a) == Rank(b)
    requires |UnlistedText(blobs)| <= 1
    ensures a == b
  {
    if a in PREFERRED_TEXT_MIMES {
      RankInjective(a, b);
    } else if b in PREFERRED_TEXT_MIMES {
      RankInjective(b, a);
    } else if a != b {
      assert {a, b} <= UnlistedText(blobs) && |{a, b}| == 2;
      SubsetCard({a, b}, UnlistedText(blobs));
    }
  }

  lemma OfferedCanonical(blobs: Blobs, t1: seq<Mime>, t2: seq<Mime>)
    requires IsIteration(t1, TextBlobs(blobs)) && IsIteration(t2, TextBlobs(blobs))
    requires |UnlistedText(blobs)| <= 1
    ensures Sort(t1, RankLe) == Sort(t2, RankLe)
  {
    IterationKeys(t1, TextBlobs(blobs));
    OrdersAreTotal();
    SortMultiset(t1, RankLe);
    SortMultiset(t2, RankLe);
    SortSorted(t1, RankLe);
    SortSorted(t2, RankLe);
    forall a, b | a in t1 && b in t1 && RankLe(a, b) && RankLe(b, a) ensures a == b {
      RankTie(blobs, a, b);
    }
    SortedUnique(Sort(t1, RankLe), Sort(t2, RankLe), RankLe);
  }

  lemma {:induction false} SubsetCard<T>(a: set<T>, b: set<T>)
    requires a <= b
    ensures |a| <= |b|
  {
    if x :| x in a {
      SubsetCard(a - {x}, b - {x});
    }
  }

  lemma PrimaryCanonical(blobs: Blobs, t1: seq<Mime>, t2: seq<Mime>)
    requires blobs != map[] && IsIteration(t1, blobs) && IsIteration(t2, blobs)
    ensures PrimaryMime(blobs, t1) == PrimaryMime(blobs, t2)
  {
    IterationKeys(t1, blobs);
    IterationKeys(t2, blobs);
    StrLeTotal(Least(t1), Least(t2));
  }

  ghost predicate OrderIndependent(utf8: Decoder, blobs: Blobs) {
    forall o1, t1, o2, t2 ::
      IsIteration(o1, blobs) && IsIteration(t1, TextBlobs(blobs)) &&
      IsIteration(o2, blobs) && IsIteration(t2, TextBlobs(blobs))
      ==> FromBlobs(utf8, blobs, o1, t1) == FromBlobs(utf8, blobs, o2, t2)
  }

  /** Some order of the keys exists, starting with any given list of distinct keys. */
  lemma {:induction false} IterationFrom(first: seq<Mime>, keys: set<Mime>) returns (order: seq<Mime>)
    requires multiset(first) <= multiset(keys)
    ensures multiset(order) == multiset(keys) && first <= order
    decreases |keys| - |first|
  {
    assert |multiset(first)| == |first|;
    if multiset(first) == multiset(keys) {
      order := first;
    } else {
      var x :| x in keys && multiset(first)[x] == 0;
      assert multiset(first + [x]) == multiset(first) + multiset{x};
      assert |multiset(first + [x])| == |first| + 1;
      MultisetCard(multiset(first + [x]), multiset(keys));
      order := IterationFrom(first + [x], keys);
    }
  }

  lemma MultisetCard<T>(a: multiset<T>, b: multiset<T>)
    requires a <= b
    ensures |a| <= |b|
  {
    assert b == a + (b - a);
  }

  lemma TiesDiffer(t1: seq<Mime>, t2: seq<Mime>, a: Mime, b: Mime)
    requires a != b && a !in PREFERRED_TEXT_MIMES && b !in PREFERRED_TEXT_MIMES
    requires [a] <= t1 && [b] <= t2
    ensures Sort(t1, RankLe) != Sort(t2, RankLe)
  {
    var unlisted := (m: Mime) => m !in PREFERRED_TEXT_MIMES;
    SortStable(unlisted, t1, RankLe);
    SortStable(unlisted, t2, RankLe);
    assert Filter(unlisted, t1)[0] == a && Filter(unlisted, t2)[0] == b;
  }

  lemma AssembleInjective(a: Option<TextData>, b: Option<TextData>, images: seq<ImageData>)
    requires a != b
    ensures Assemble(a, images) != Assemble(b, images)
  {
  }

  /** Two unlisted text types tie, so which is offered first is up to the iteration. */
  lemma TiesFollowIteration(utf8: Decoder, blobs: Blobs, a: Mime, b: Mime)
    requires a != b && a in UnlistedText(blobs) && b in UnlistedText(blobs)
    ensures !OrderIndependent(utf8, blobs)
  {
    var order := IterationFrom([], blobs.Keys);
    var t1 := IterationFrom([a, b], TextBlobs(blobs).Keys);
    var t2 := IterationFrom([b, a], TextBlobs(blobs).Keys);
    assert t1[0] == a && t2[0] == b;
    TiesDiffer(t1, t2, a, b);
    IterationKeys(order, blobs);
    BuildTextKeeps(utf8, TextBlobs(blobs), t1);
    BuildTextKeeps(utf8, TextBlobs(blobs), t2);
    AssembleInjective(BuildText(utf8, TextBlobs(blobs), t1), BuildText(utf8, TextBlobs(blobs), t2),
                      Sort(ImageList(blobs, order), ImageLe));
    assert FromBlobs(utf8, blobs, order, t1) != FromBlobs(utf8, blobs, order, t2);
  }

  lemma ListedIsCanonical(
    utf8: Decoder, blobs: Blobs, o1: seq<Mime>, t1: seq<Mime>, o2: seq<Mime>, t2: seq<Mime>)
    requires IsIteration(o1, blobs) && IsIteration(t1, TextBlobs(blobs))
    requires IsIteration(o2, blobs) && IsIteration(t2, TextBlobs(blobs))
    requires |UnlistedText(blobs)| <= 1
    ensures FromBlobs(utf8, blobs, o1, t1) == FromBlobs(utf8, blobs, o2, t2)
  {
    IterationKeys(o1, blobs);
    IterationKeys(o2, blobs);
    SortedImagesCanonical(blobs, o1, o2);
    OfferedCanonical(blobs, t1, t2);
    if TextBlobs(blobs) != map[] {
      PrimaryCanonical(TextBlobs(blobs), t1, t2);
    }
    assert BuildText(utf8, TextBlobs(blobs), t1) == BuildText(utf8, TextBlobs(blobs), t2);
  }

  /** Classification is a function of the bytes exactly when at most one text type is unlisted. */
  lemma CanonicalIff(utf8: Decoder, blobs: Blobs)
    ensures OrderIndependent(utf8, blobs) <==> |UnlistedText(blobs)| <= 1
  {
    if |UnlistedText(blobs)| <= 1 {
      forall o1, t1, o2, t2 |
        IsIteration(o1, blobs) && IsIteration(t1, TextBlobs(blobs)) &&
        IsIteration(o2, blobs) && IsIteration(t2, TextBlobs(blobs))
        ensures FromBlobs(utf8, blobs, o1, t1) == FromBlobs(utf8, blobs, o2, t2)
      {
        ListedIsCanonical(utf8, blobs, o1, t1, o2, t2);
      }
    } else {
      var a :| a in UnlistedText(blobs);
      assert |UnlistedText(blobs) - {a}| >= 1;
      var b :| b in UnlistedText(blobs) - {a};
      TiesFollowIteration(utf8, blobs, a, b);
    }
  }
}
