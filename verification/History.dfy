/** `ClipState` of `src/clipboard/history.rs`: the bounded history, as a function on values, as
    the class that updates it in place, and as a window on an unbounded log. */
module Histories {
  import opened Config
  import opened Seqs
  import opened Contents

  /** `timestamp` is an opaque clock value, milliseconds from the epoch. */
  datatype Entry = Entry(id: nat, timestamp: int, content: Content)

  datatype History = History(entries: seq<Entry>, nextId: nat)

  const EMPTY := History([], 1)

  function Find(entries: seq<Entry>, id: nat): (r: Option<Entry>)
    ensures r.Some? ==> r.value in entries && r.value.id == id
    ensures r == None ==> forall e :: e in entries ==> e.id != id
  {
    if entries == [] then None
    else if entries[0].id == id then Some(entries[0])
    else Find(entries[1..], id)
  }

  /** `retain(|e| e.id != id)`. */
  function Without(entries: seq<Entry>, id: nat): seq<Entry> {
    if entries == [] then []
    else if entries[0].id != id then [entries[0]] + Without(entries[1..], id)
    else Without(entries[1..], id)
  }

  /** True when `add_grouped` ignores the content. */
  predicate Repeats(entries: seq<Entry>, c: Content) {
    entries != [] && entries[|entries| - 1].content == c
  }

  /** `add_grouped` on classified content. */
  function Add(h: History, content: Option<Content>, now: int): (History, Option<nat>) {
    if content == None || Repeats(h.entries, content.value) then (h, None)
    else
      var e := Entry(h.nextId, now, content.value);
      (History(Last(h.entries + [e], MAX_HISTORY), h.nextId + 1), Some(h.nextId))
  }

  function RemoveEntry(h: History, id: nat): History {
    h.(entries := Without(h.entries, id))
  }

  class ClipState {
    var entries: seq<Entry>
    var nextId: nat

    function View(): History
      reads this
    {
      History(entries, nextId)
    }

    constructor ()
      ensures View() == EMPTY
    {
      entries, nextId := [], 1;
    }

    function Get(id: nat): Option<Entry>
      reads this
    {
      Find(entries, id)
    }

    method Remove(id: nat) returns (removed: bool)
      modifies this
      ensures View() == RemoveEntry(old(View()), id)
      ensures removed <==> exists e :: e in old(entries) && e.id == id
    {
      var before := |entries|;
      WithoutLength(entries, id);
      entries := Without(entries, id);
      removed := |entries| != before;
    }

    method AddGrouped(utf8: Decoder, blobs: Blobs, order: seq<Mime>, textOrder: seq<Mime>, now: int)
      returns (id: Option<nat>)
      requires IsIteration(order, blobs) && IsIteration(textOrder, TextBlobs(blobs))
      modifies this
      ensures (View(), id) == Add(old(View()), FromBlobs(utf8, blobs, order, textOrder), now)
    {
      var content := Classify(utf8, blobs, order, textOrder);
      id := AddContent(content, now);
    }

    /** The rest of `add_grouped`: dedup against the newest entry, append, evict. */
    method AddContent(content: Option<Content>, now: int) returns (id: Option<nat>)
      modifies this
      ensures (View(), id) == Add(old(View()), content, now)
    {
      if content == None || (entries != [] && entries[|entries| - 1].content == content.value) {
        return None;
      }
      id := Some(nextId);
      nextId := nextId + 1;
      entries := entries + [Entry(id.value, now, content.value)];
      Evict();
    }

    /** Drops the oldest entries while there are too many. */
    method Evict()
      modifies this`entries
      ensures entries == Last(old(entries), MAX_HISTORY)
    {
      ghost var all := entries;
      while |entries| > MAX_HISTORY
        invariant |entries| <= |all| && entries == all[|all| - |entries|..]
        invariant |entries| >= MAX_HISTORY || entries == all
      {
        entries := entries[1..];
      }
    }
  }

  lemma {:induction false} WithoutMembers(entries: seq<Entry>, id: nat)
    ensures forall e :: e in Without(entries, id) <==> e in entries && e.id != id
  {
    if entries != [] {
      WithoutMembers(entries[1..], id);
    }
  }

  lemma {:induction false} WithoutLength(entries: seq<Entry>, id: nat)
    ensures |Without(entries, id)| <= |entries|
    ensures |Without(entries, id)| == |entries| <==> forall e :: e in entries ==> e.id != id
    ensures |Without(entries, id)| == |entries| ==> Without(entries, id) == entries
  {
    if entries != [] {
      WithoutLength(entries[1..], id);
      assert entries == [entries[0]] + entries[1..];
    }
  }

  // ---- Ids ----

  /** Ids increase along the history and stay below `nextId`. */
  ghost predicate IdsOk(h: History) {
    && (forall i, j :: 0 <= i < j < |h.entries| ==> h.entries[i].id < h.entries[j].id)
    && (forall e :: e in h.entries ==> e.id < h.nextId)
  }

  /** Removing by id removes the one entry that has it. */
  lemma {:induction false} WithoutAt(entries: seq<Entry>, k: nat)
    requires k < |entries| && forall i, j :: 0 <= i < j < |entries| ==> entries[i].id < entries[j].id
    ensures Without(entries, entries[k].id) == entries[..k] + entries[k + 1..]
  {
    if k == 0 {
      WithoutLength(entries[1..], entries[0].id);
    } else {
      WithoutAt(entries[1..], k - 1);
    }
  }

  lemma AppendKeepsIds(h: History, e: Entry)
    requires IdsOk(h) && e.id == h.nextId
    ensures IdsOk(History(Last(h.entries + [e], MAX_HISTORY), h.nextId + 1))
  {
    assert forall i :: 0 <= i < |h.entries| ==> h.entries[i] in h.entries;
  }

  lemma AddKeepsIds(h: History, content: Option<Content>, now: int)
    requires IdsOk(h)
    ensures IdsOk(Add(h, content, now).0)
  {
    if content.Some? {
      AppendKeepsIds(h, Entry(h.nextId, now, content.value));
    }
  }

  lemma RemoveKeepsIds(h: History, id: nat)
    requires IdsOk(h)
    ensures IdsOk(RemoveEntry(h, id))
  {
    if k :| 0 <= k < |h.entries| && h.entries[k].id == id {
      WithoutAt(h.entries, k);
    } else {
      WithoutLength(h.entries, id);
    }
  }

  lemma FindAt(entries: seq<Entry>, k: nat)
    requires k < |entries| && forall i, j :: 0 <= i < j < |entries| ==> entries[i].id < entries[j].id
    ensures Find(entries, entries[k].id) == Some(entries[k])
  {
  }

  // ---- Whole runs ----

  datatype Op = Store(content: Content, now: int) | Drop(id: nat)

  function Apply(h: History, op: Op): (History, Option<nat>) {
    match op
    case Store(c, now) => Add(h, Some(c), now)
    case Drop(id) => (RemoveEntry(h, id), None)
  }

  function Run(h: History, ops: seq<Op>): History {
    if ops == [] then h else Apply(Run(h, ops[..|ops| - 1]), ops[|ops| - 1]).0
  }

  /** The ids handed out along a run. */
  function Issued(h: History, ops: seq<Op>): seq<nat> {
    if ops == [] then []
    else
      var front := ops[..|ops| - 1];
      match Apply(Run(h, front), ops[|ops| - 1]).1
      case None => Issued(h, front)
      case Some(id) => Issued(h, front) + [id]
  }

  /** Over every run, ids stay increasing and below `nextId`, and no id is handed out twice. */
  lemma {:induction false} RunKeepsIds(h: History, ops: seq<Op>)
    requires IdsOk(h)
    ensures IdsOk(Run(h, ops)) && h.nextId <= Run(h, ops).nextId
    ensures forall i, j :: 0 <= i < j < |Issued(h, ops)| ==> Issued(h, ops)[i] < Issued(h, ops)[j]
    ensures forall id :: id in Issued(h, ops) ==> h.nextId <= id < Run(h, ops).nextId
  {
    if ops != [] {
      var front, op := ops[..|ops| - 1], ops[|ops| - 1];
      RunKeepsIds(h, front);
      match op {
        case Store(c, now) => AddKeepsIds(Run(h, front), Some(c), now);
        case Drop(id) => RemoveKeepsIds(Run(h, front), id);
      }
      var before, after := Issued(h, front), Issued(h, ops);
      assert after == before || after == before + [Run(h, front).nextId];
      assert forall i :: 0 <= i < |before| ==> before[i] in before;
    }
  }

  /** The unbounded log of a sequence of copies: every copy that is no immediate repeat, numbered from one. */
  function Log(cs: seq<Content>, stamps: seq<int>): seq<Entry>
    requires |stamps| == |cs|
  {
    if cs == [] then []
    else
      var n := |cs| - 1;
      var before := Log(cs[..n], stamps[..n]);
      if n > 0 && cs[n] == cs[n - 1] then before else before + [Entry(|before| + 1, stamps[n], cs[n])]
  }

  function Stores(cs: seq<Content>, stamps: seq<int>): seq<Op>
    requires |stamps| == |cs|
  {
    seq(|cs|, i requires 0 <= i < |cs| => Store(cs[i], stamps[i]))
  }

  lemma {:induction false} LogEndsWith(cs: seq<Content>, stamps: seq<int>)
    requires cs != [] && |stamps| == |cs|
    ensures Log(cs, stamps) != [] && Log(cs, stamps)[|Log(cs, stamps)| - 1].content == cs[|cs| - 1]
  {
    var n := |cs| - 1;
    if n > 0 && cs[n] == cs[n - 1] {
      LogEndsWith(cs[..n], stamps[..n]);
    }
  }

  ghost predicate IsWindow(h: History, log: seq<Entry>) {
    h.entries == Last(log, MAX_HISTORY) && h.nextId == |log| + 1
  }

  /** One more copy moves the window on by one. */
  lemma WindowStep(h: History, log: seq<Entry>, c: Content, now: int)
    requires IsWindow(h, log)
    ensures var grown := log + [Entry(|log| + 1, now, c)];
            IsWindow(Add(h, Some(c), now).0, if log != [] && log[|log| - 1].content == c then log else grown)
  {
    LastAppend(log, [Entry(h.nextId, now, c)], MAX_HISTORY);
  }

  /** The bounded history is a window on the unbounded log: after any sequence of copies it holds the last
      `MAX_HISTORY` of the log, with their ids and times, and the next id is the next of the log. */
  lemma {:induction false} HistoryIsWindow(cs: seq<Content>, stamps: seq<int>)
    requires |stamps| == |cs|
    ensures IsWindow(Run(EMPTY, Stores(cs, stamps)), Log(cs, stamps))
  {
    if cs != [] {
      var n := |cs| - 1;
      HistoryIsWindow(cs[..n], stamps[..n]);
      assert Stores(cs, stamps)[..n] == Stores(cs[..n], stamps[..n]);
      if n > 0 {
        LogEndsWith(cs[..n], stamps[..n]);
      }
      WindowStep(Run(EMPTY, Stores(cs[..n], stamps[..n])), Log(cs[..n], stamps[..n]), cs[n], stamps[n]);
    }
  }

  lemma NewEntry(h: History, op: Op, e: Entry)
    requires e in Apply(h, op).0.entries
    ensures e in h.entries || (op == Store(e.content, e.timestamp) && e.id == h.nextId)
    ensures e in h.entries ==> op != Drop(e.id)
  {
    if op.Drop? {
      WithoutMembers(h.entries, op.id);
    } else if e !in h.entries {
      assert e == Entry(h.nextId, op.now, op.content);
    }
  }

  /** The `k`-th operation stored the entry, and none after it removed it. */
  ghost predicate StoredAt(h: History, ops: seq<Op>, e: Entry, k: nat) {
    && k < |ops| && ops[k] == Store(e.content, e.timestamp) && e.id == Run(h, ops[..k]).nextId
    && forall j :: k < j < |ops| ==> ops[j] != Drop(e.id)
  }

  lemma StoredBefore(h: History, ops: seq<Op>, e: Entry, k: nat)
    requires ops != [] && StoredAt(h, ops[..|ops| - 1], e, k) && ops[|ops| - 1] != Drop(e.id)
    ensures StoredAt(h, ops, e, k)
  {
    var front := ops[..|ops| - 1];
    assert front[..k] == ops[..k];
    forall j | k < j < |ops| ensures ops[j] != Drop(e.id) {
      assert j < |front| ==> front[j] == ops[j];
    }
  }

  /** Over every run, an entry that the history did not start with has the content and the time of one of
      the stores, and was not removed after it. */
  lemma {:induction false} EntryWasStored(h: History, ops: seq<Op>, e: Entry) returns (k: nat)
    requires e in Run(h, ops).entries && e !in h.entries
    ensures StoredAt(h, ops, e, k)
  {
    var front := ops[..|ops| - 1];
    NewEntry(Run(h, front), ops[|ops| - 1], e);
    if e in Run(h, front).entries {
      k := EntryWasStored(h, front, e);
      StoredBefore(h, ops, e, k);
    } else {
      k := |front|;
    }
  }

  // ---- Neighbours ----

  /** How many neighbouring entries have equal content. */
  function EqualPairs(s: seq<Entry>): nat {
    if |s| < 2 then 0
    else (if s[0].content == s[1].content then 1 else 0) + EqualPairs(s[1..])
  }

  function Junction(a: seq<Entry>, b: seq<Entry>): nat {
    if a != [] && b != [] && a[|a| - 1].content == b[0].content then 1 else 0
  }

  lemma {:induction false} EqualPairsAppend(a: seq<Entry>, b: seq<Entry>)
    ensures EqualPairs(a + b) == EqualPairs(a) + EqualPairs(b) + Junction(a, b)
  {
    if a == [] {
      assert a + b == b;
    } else if |a| == 1 {
      assert (a + b)[1..] == b;
    } else {
      EqualPairsAppend(a[1..], b);
      assert (a + b)[1..] == a[1..] + b;
    }
  }

  lemma AddKeepsNeighbours(h: History, content: Option<Content>, now: int)
    ensures EqualPairs(Add(h, content, now).0.entries) <= EqualPairs(h.entries)
  {
    if content.Some? && !Repeats(h.entries, content.value) {
      var all := h.entries + [Entry(h.nextId, now, content.value)];
      EqualPairsAppend(h.entries, [all[|all| - 1]]);
      var kept := Last(all, MAX_HISTORY);
      EqualPairsAppend(all[..|all| - |kept|], kept);
      assert all == all[..|all| - |kept|] + kept;
    }
  }

  /** True when `id` is held and is not the newest entry. */
  predicate Interior(h: History, id: nat) {
    Find(h.entries, id).Some? && h.entries[|h.entries| - 1].id != id
  }

  lemma InsertMiddle(a: seq<Entry>, x: Entry, b: seq<Entry>)
    ensures EqualPairs(a + b) <= EqualPairs(a + ([x] + b)) + Junction(a, b)
    ensures Junction(a, b) <= if b == [] then 0 else 1
  {
    EqualPairsAppend(a, b);
    EqualPairsAppend(a, [x] + b);
    EqualPairsAppend([x], b);
  }

  lemma SplitAt<T>(s: seq<T>, k: nat)
    requires k < |s|
    ensures s == s[..k] + ([s[k]] + s[k + 1..])
  {
  }

  lemma DropOne(s: seq<Entry>, k: nat)
    requires k < |s|
    ensures EqualPairs(s[..k] + s[k + 1..]) <= EqualPairs(s) + if k + 1 < |s| then 1 else 0
  {
    InsertMiddle(s[..k], s[k], s[k + 1..]);
    SplitAt(s, k);
  }

  lemma InteriorAt(h: History, k: nat)
    requires IdsOk(h) && k < |h.entries|
    ensures Interior(h, h.entries[k].id) <==> k + 1 < |h.entries|
  {
    FindAt(h.entries, k);
  }

  lemma RemoveNeighboursAt(h: History, k: nat)
    requires IdsOk(h) && k < |h.entries|
    ensures EqualPairs(RemoveEntry(h, h.entries[k].id).entries)
            <= EqualPairs(h.entries) + if k + 1 < |h.entries| then 1 else 0
  {
    WithoutAt(h.entries, k);
    DropOne(h.entries, k);
  }

  lemma RemoveNeighbours(h: History, id: nat)
    requires IdsOk(h)
    ensures EqualPairs(RemoveEntry(h, id).entries) <= EqualPairs(h.entries) + if Interior(h, id) then 1 else 0
  {
    if k :| 0 <= k < |h.entries| && h.entries[k].id == id {
      RemoveNeighboursAt(h, k);
      InteriorAt(h, k);
    } else {
      WithoutLength(h.entries, id);
    }
  }

  function InteriorDrops(h: History, ops: seq<Op>): nat {
    if ops == [] then 0
    else
      var front, op := ops[..|ops| - 1], ops[|ops| - 1];
      InteriorDrops(h, front) + if op.Drop? && Interior(Run(h, front), op.id) then 1 else 0
  }

  /** Neighbours differ, except for at most one pair for every removal of an entry that was not the newest. */
  lemma {:induction false} EqualPairsBound(ops: seq<Op>)
    ensures EqualPairs(Run(EMPTY, ops).entries) <= InteriorDrops(EMPTY, ops)
  {
    if ops != [] {
      var front, op := ops[..|ops| - 1], ops[|ops| - 1];
      EqualPairsBound(front);
      RunKeepsIds(EMPTY, front);
      match op
      case Store(c, now) => AddKeepsNeighbours(Run(EMPTY, front), Some(c), now);
      case Drop(id) => RemoveNeighbours(Run(EMPTY, front), id);
    }
  }

  // ---- What consecutive dedup decides ----

  /** Copying the same blobs again is always recognised, whatever order the two hash maps iterate in. */
  ghost predicate RepeatAlwaysIgnored(utf8: Decoder, blobs: Blobs) {
    forall h, o1, t1, o2, t2, now ::
      IsIteration(o1, blobs) && IsIteration(t1, TextBlobs(blobs)) &&
      IsIteration(o2, blobs) && IsIteration(t2, TextBlobs(blobs))
      ==> Add(Add(h, FromBlobs(utf8, blobs, o1, t1), now).0, FromBlobs(utf8, blobs, o2, t2), now).1 == None
  }

  lemma SecondAdd(h: History, a: Option<Content>, b: Option<Content>, now: int)
    requires a == None <==> b == None
    ensures Add(Add(h, a, now).0, b, now).1 == None <==> a == b
  {
  }

  lemma FromBlobsNone(utf8: Decoder, blobs: Blobs, o1: seq<Mime>, t1: seq<Mime>, o2: seq<Mime>, t2: seq<Mime>)
    requires IsIteration(o1, blobs) && IsIteration(t1, TextBlobs(blobs))
    requires IsIteration(o2, blobs) && IsIteration(t2, TextBlobs(blobs))
    ensures FromBlobs(utf8, blobs, o1, t1) == None <==> FromBlobs(utf8, blobs, o2, t2) == None
  {
    RepresentationsLossless(utf8, blobs, o1, t1);
    RepresentationsLossless(utf8, blobs, o2, t2);
  }

  /** The dedup guard compares bytes exactly when at most one text type is unlisted. */
  lemma RepeatIgnoredIff(utf8: Decoder, blobs: Blobs)
    ensures RepeatAlwaysIgnored(utf8, blobs) <==> |UnlistedText(blobs)| <= 1
  {
    CanonicalIff(utf8, blobs);
    forall h, o1, t1, o2, t2, now |
      IsIteration(o1, blobs) && IsIteration(t1, TextBlobs(blobs)) &&
      IsIteration(o2, blobs) && IsIteration(t2, TextBlobs(blobs))
      ensures Add(Add(h, FromBlobs(utf8, blobs, o1, t1), now).0, FromBlobs(utf8, blobs, o2, t2), now).1 == None
              <==> FromBlobs(utf8, blobs, o1, t1) == FromBlobs(utf8, blobs, o2, t2)
    {
      FromBlobsNone(utf8, blobs, o1, t1, o2, t2);
      SecondAdd(h, FromBlobs(utf8, blobs, o1, t1), FromBlobs(utf8, blobs, o2, t2), now);
    }
    if RepeatAlwaysIgnored(utf8, blobs) {
      forall o1, t1, o2, t2 |
        IsIteration(o1, blobs) && IsIteration(t1, TextBlobs(blobs)) &&
        IsIteration(o2, blobs) && IsIteration(t2, TextBlobs(blobs))
        ensures FromBlobs(utf8, blobs, o1, t1) == FromBlobs(utf8, blobs, o2, t2)
      {
        assert Add(Add(EMPTY, FromBlobs(utf8, blobs, o1, t1), 0).0, FromBlobs(utf8, blobs, o2, t2), 0).1 == None;
      }
    }
  }
}
