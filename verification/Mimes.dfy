/** `src/mime.rs`: which MIME types are text, and which offered types are requested. */
module Mimes {
  import opened Config
  import opened Seqs

  predicate IsTextMime(mime: Mime) {
    || mime == "TEXT"
    || mime == "STRING"
    || mime == "UTF8_STRING"
    || mime == "text/plain"
    || "text/plain;" <= mime
    || "text/" <= mime
  }

  /** What `PickMimes` may request at all. */
  predicate Eligible(mime: Mime) {
    IsTextMime(mime) || mime in SUPPORTED_BINARY_MIMES
  }

  /** Position of the first `x` in `s`, or the length of `s`. */
  function IndexOf(s: seq<Mime>, x: Mime): (i: nat)
    ensures i <= |s| && (x in s <==> i < |s|)
    ensures i < |s| ==> s[i] == x && x !in s[..i]
  {
    if s == [] then 0 else if s[0] == x then 0 else 1 + IndexOf(s[1..], x)
  }

  // ---- The tables ----

  lemma TablesAreDistinct()
    ensures NoDup(PREFERRED_TEXT_MIMES) && NoDup(SUPPORTED_BINARY_MIMES)
  {
    var p, b := PREFERRED_TEXT_MIMES, SUPPORTED_BINARY_MIMES;
    assert |p[0]| == 24 && |p[1]| == 10 && |p[2]| == 13 && |p[3]| == 9 && |p[4]| == 13;
    assert |p[5]| == 4 && |p[6]| == 6 && |p[7]| == 11 && p[2][5] != p[4][5];
    assert |b[0]| == 9 && |b[1]| == 10 && |b[2]| == 10 && |b[3]| == 9;
    assert b[0][6] != b[3][6] && b[1][6] != b[2][6];
  }

  lemma TablesAreClassified()
    ensures forall m :: m in PREFERRED_TEXT_MIMES ==> IsTextMime(m)
    ensures forall m :: m in SUPPORTED_BINARY_MIMES ==> !IsTextMime(m) && m !in PREFERRED_TEXT_MIMES
  {
    forall m | m in PREFERRED_TEXT_MIMES ensures IsTextMime(m) {
      assert "text/" <= m || m == "TEXT" || m == "STRING" || m == "UTF8_STRING";
    }
    forall m | m in SUPPORTED_BINARY_MIMES ensures !IsTextMime(m) {
      assert m[0] == 'i';
    }
  }

  /** Text is whatever starts with "text/", and the three legacy atoms. */
  lemma TextMimeIff(mime: Mime)
    ensures IsTextMime(mime) <==> "text/" <= mime || mime in ["TEXT", "STRING", "UTF8_STRING"]
  {
    assert "text/" <= "text/plain";
    if "text/plain;" <= mime {
      assert "text/" <= "text/plain;";
    }
  }

  // ---- Selection ----

  /** The table entries that are offered, in table order. */
  function Keep(table: seq<Mime>, offered: seq<Mime>): seq<Mime> {
    if table == [] then []
    else if table[0] in offered then [table[0]] + Keep(table[1..], offered)
    else Keep(table[1..], offered)
  }

  /** The offered text types that are not in the preference table, first occurrences in offer order. */
  function OtherText(offered: seq<Mime>): seq<Mime> {
    if offered == [] then []
    else
      var m, r := offered[|offered| - 1], OtherText(offered[..|offered| - 1]);
      if IsTextMime(m) && m !in PREFERRED_TEXT_MIMES && m !in r then r + [m] else r
  }

  function Ranked(offered: seq<Mime>): seq<Mime> {
    Keep(PREFERRED_TEXT_MIMES, offered) + OtherText(offered) + Keep(SUPPORTED_BINARY_MIMES, offered)
  }

  function Pick(offered: seq<Mime>): seq<Mime> {
    var all := Ranked(offered);
    if |all| <= MAX_MIMES_PER_SELECTION then all else all[..MAX_MIMES_PER_SELECTION]
  }

  lemma {:induction false} KeepMembers(table: seq<Mime>, offered: seq<Mime>)
    ensures forall m :: m in Keep(table, offered) <==> m in table && m in offered
  {
    if table != [] {
      KeepMembers(table[1..], offered);
    }
  }

  lemma {:induction false} KeepAppend(a: seq<Mime>, b: seq<Mime>, offered: seq<Mime>)
    ensures Keep(a + b, offered) == Keep(a, offered) + Keep(b, offered)
  {
    if a == [] {
      assert a + b == b;
    } else {
      KeepAppend(a[1..], b, offered);
      assert (a + b)[0] == a[0] && (a + b)[1..] == a[1..] + b;
    }
  }

  lemma {:induction false} OtherTextMembers(offered: seq<Mime>)
    ensures forall m :: m in OtherText(offered) <==>
              m in offered && IsTextMime(m) && m !in PREFERRED_TEXT_MIMES
  {
    if offered != [] {
      OtherTextMembers(offered[..|offered| - 1]);
      assert offered == offered[..|offered| - 1] + [offered[|offered| - 1]];
    }
  }

  /** Pushes the entries of `table` that are offered and not picked yet (the first and the third loop). */
  method PickFromTable(table: seq<Mime>, offered: seq<Mime>, picked: seq<Mime>) returns (r: seq<Mime>)
    requires NoDup(table) && forall m :: m in table ==> m !in picked
    ensures r == picked + Keep(table, offered)
  {
    r := picked;
    for i := 0 to |table|
      invariant r == picked + Keep(table[..i], offered)
    {
      KeepMembers(table[..i], offered);
      KeepAppend(table[..i], [table[i]], offered);
      assert table[..i + 1] == table[..i] + [table[i]];
      assert Keep([table[i]], offered) == if table[i] in offered then [table[i]] else [];
      if table[i] in offered && table[i] !in r {
        r := r + [table[i]];
      }
    }
    assert table[..|table|] == table;
  }

  /** Pushes every other offered text type (the second loop). */
  method PickOtherText(offered: seq<Mime>, picked: seq<Mime>) returns (r: seq<Mime>)
    requires forall m :: m in picked <==> m in PREFERRED_TEXT_MIMES && m in offered
    ensures r == picked + OtherText(offered)
  {
    r := picked;
    for i := 0 to |offered|
      invariant r == picked + OtherText(offered[..i])
    {
      assert offered[..i + 1][..i] == offered[..i];
      if IsTextMime(offered[i]) && offered[i] !in r {
        r := r + [offered[i]];
      }
    }
    assert offered[..|offered|] == offered;
  }

  lemma PickedSoFar(offered: seq<Mime>)
    ensures forall m :: m in Keep(PREFERRED_TEXT_MIMES, offered) <==> m in PREFERRED_TEXT_MIMES && m in offered
    ensures forall m :: m in SUPPORTED_BINARY_MIMES ==>
              m !in Keep(PREFERRED_TEXT_MIMES, offered) + OtherText(offered)
  {
    KeepMembers(PREFERRED_TEXT_MIMES, offered);
    OtherTextMembers(offered);
    TablesAreClassified();
  }

  method PickMimes(mimeTypes: seq<Mime>) returns (picked: seq<Mime>)
    ensures picked == Pick(mimeTypes)
  {
    assert NoDup(PREFERRED_TEXT_MIMES) && NoDup(SUPPORTED_BINARY_MIMES) by { TablesAreDistinct(); }
    PickedSoFar(mimeTypes);
    picked := PickFromTable(PREFERRED_TEXT_MIMES, mimeTypes, []);
    picked := PickOtherText(mimeTypes, picked);
    picked := PickFromTable(SUPPORTED_BINARY_MIMES, mimeTypes, picked);
    assert picked == Ranked(mimeTypes);
    if |picked| > MAX_MIMES_PER_SELECTION {
      picked := picked[..MAX_MIMES_PER_SELECTION];
    }
  }

  // ---- What the selection means ----

  /** Preferred text by table position, then any other text, then images by table position. */
  function Weight(m: Mime): nat {
    if m in PREFERRED_TEXT_MIMES then IndexOf(PREFERRED_TEXT_MIMES, m)
    else if IsTextMime(m) then |PREFERRED_TEXT_MIMES|
    else |PREFERRED_TEXT_MIMES| + 1 + IndexOf(SUPPORTED_BINARY_MIMES, m)
  }

  /** `a` is requested in preference to `b`: lower weight, or same weight and offered earlier. */
  predicate Precedes(offered: seq<Mime>, a: Mime, b: Mime) {
    Weight(a) < Weight(b) || (Weight(a) == Weight(b) && IndexOf(offered, a) < IndexOf(offered, b))
  }

  function Priority(offered: seq<Mime>): (Mime, Mime) -> bool {
    (a, b) => Precedes(offered, a, b)
  }

  function Candidates(offered: seq<Mime>): set<Mime> {
    set m | m in offered && Eligible(m)
  }

  /** The documented meaning of `pick_mimes`, without its loops. */
  ghost predicate IsSelection(offered: seq<Mime>, p: seq<Mime>) {
    FirstOf(p, Candidates(offered), Priority(offered), MAX_MIMES_PER_SELECTION)
  }

  ghost predicate Ascending(order: seq<Mime>, k: seq<Mime>) {
    forall i, j :: 0 <= i < j < |k| ==> IndexOf(order, k[i]) < IndexOf(order, k[j])
  }

  lemma AscendingTail(table: seq<Mime>, k: seq<Mime>)
    requires table != [] && Ascending(table[1..], k) && forall m :: m in k ==> m in table[1..] && m != table[0]
    ensures Ascending(table, k) && Ascending(table, [table[0]] + k)
  {
    assert forall i :: 0 <= i < |k| ==> k[i] in k;
    assert forall i :: 0 <= i < |k| ==> IndexOf(table, k[i]) == 1 + IndexOf(table[1..], k[i]);
  }

  lemma {:induction false} KeepOrdered(table: seq<Mime>, offered: seq<Mime>)
    requires NoDup(table)
    ensures Ascending(table, Keep(table, offered))
  {
    if table != [] {
      KeepOrdered(table[1..], offered);
      KeepMembers(table[1..], offered);
      AscendingTail(table, Keep(table[1..], offered));
    }
  }

  lemma {:induction false} IndexOfAppend(s: seq<Mime>, t: seq<Mime>, m: Mime)
    ensures IndexOf(s + t, m) == if m in s then IndexOf(s, m) else |s| + IndexOf(t, m)
  {
    if s == [] {
      assert s + t == t;
    } else {
      IndexOfAppend(s[1..], t, m);
      assert (s + t)[1..] == s[1..] + t;
    }
  }

  lemma {:induction false} OtherTextOrdered(offered: seq<Mime>)
    ensures Ascending(offered, OtherText(offered))
  {
    if offered != [] {
      var s, m := offered[..|offered| - 1], offered[|offered| - 1];
      var k, first := OtherText(offered), OtherText(s);
      OtherTextOrdered(s);
      OtherTextMembers(s);
      assert offered == s + [m];
      forall x | x in first ensures IndexOf(offered, x) == IndexOf(s, x) < |s| {
        IndexOfAppend(s, [m], x);
      }
      IndexOfAppend(s, [m], m);
      forall i, j | 0 <= i < j < |k| ensures IndexOf(offered, k[i]) < IndexOf(offered, k[j]) {
        assert k[i] == first[i] && k[i] in first;
        assert j < |first| ==> k[j] == first[j] && k[j] in first;
      }
    }
  }

  lemma WeightsByTable(offered: seq<Mime>)
    ensures forall m :: m in Keep(PREFERRED_TEXT_MIMES, offered) ==>
              Weight(m) == IndexOf(PREFERRED_TEXT_MIMES, m) < |PREFERRED_TEXT_MIMES|
    ensures forall m :: m in OtherText(offered) ==> Weight(m) == |PREFERRED_TEXT_MIMES|
    ensures forall m :: m in Keep(SUPPORTED_BINARY_MIMES, offered) ==>
              Weight(m) == |PREFERRED_TEXT_MIMES| + 1 + IndexOf(SUPPORTED_BINARY_MIMES, m)
    ensures forall m :: m in Ranked(offered) <==> m in offered && Eligible(m)
  {
    TablesAreClassified();
    KeepMembers(PREFERRED_TEXT_MIMES, offered);
    OtherTextMembers(offered);
    KeepMembers(SUPPORTED_BINARY_MIMES, offered);
  }

  lemma RankedOrdered(offered: seq<Mime>, i: nat, j: nat)
    requires i < j < |Ranked(offered)|
    ensures Precedes(offered, Ranked(offered)[i], Ranked(offered)[j])
  {
    WeightsByTable(offered);
    var a, b, c := Keep(PREFERRED_TEXT_MIMES, offered), OtherText(offered), Keep(SUPPORTED_BINARY_MIMES, offered);
    var x, y := Ranked(offered)[i], Ranked(offered)[j];
    assert if i < |a| then x == a[i] else if i < |a| + |b| then x == b[i - |a|] else x == c[i - |a| - |b|];
    assert if j < |a| then y == a[j] else if j < |a| + |b| then y == b[j - |a|] else y == c[j - |a| - |b|];
    if j < |a| {
      TablesAreDistinct();
      KeepOrdered(PREFERRED_TEXT_MIMES, offered);
    } else if |a| <= i && j < |a| + |b| {
      OtherTextOrdered(offered);
    } else if |a| + |b| <= i {
      TablesAreDistinct();
      KeepOrdered(SUPPORTED_BINARY_MIMES, offered);
    } else {
      assert Weight(x) < Weight(y);
    }
  }

  /** `pick_mimes` meets its documentation. */
  lemma PickIsSelection(offered: seq<Mime>)
    ensures IsSelection(offered, Pick(offered)) && NoDup(Pick(offered))
  {
    WeightsByTable(offered);
    var all, p := Ranked(offered), Pick(offered);
    forall i, j | 0 <= i < j < |all| ensures Precedes(offered, all[i], all[j]) {
      RankedOrdered(offered, i, j);
    }
    forall m | m in Candidates(offered) && m !in p
      ensures |p| == MAX_MIMES_PER_SELECTION && forall q :: q in p ==> Precedes(offered, q, m)
    {
      assert m in all;
      var k :| 0 <= k < |all| && all[k] == m;
      assert p == all[..MAX_MIMES_PER_SELECTION] && k >= |p|;
    }
  }

  /** The documentation leaves no freedom: it determines the selection. */
  lemma SelectionIsUnique(offered: seq<Mime>, p: seq<Mime>)
    requires IsSelection(offered, p)
    ensures p == Pick(offered)
  {
    PickIsSelection(offered);
    FirstOfUnique(p, Pick(offered), Candidates(offered), Priority(offered), MAX_MIMES_PER_SELECTION);
  }

  lemma IndexOfNoDup(s: seq<Mime>, i: nat)
    requires NoDup(s) && i < |s|
    ensures IndexOf(s, s[i]) == i
  {
  }

  /** Offering exactly what was picked picks the same again. */
  lemma PickIsIdempotent(offered: seq<Mime>)
    ensures Pick(Pick(offered)) == Pick(offered)
  {
    PickIsSelection(offered);
    var p := Pick(offered);
    forall i, j | 0 <= i < j < |p| ensures Precedes(p, p[i], p[j]) {
      IndexOfNoDup(p, i);
      IndexOfNoDup(p, j);
      assert Priority(offered)(p[i], p[j]);
    }
    SelectionIsUnique(p, p);
  }
}
