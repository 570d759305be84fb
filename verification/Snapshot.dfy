/** `src/daemon/snapshot.rs` and the row type of `src/daemon/types.rs`: the rows the UI sees. */
module Snapshots {
  import opened Config
  import opened Seqs
  import opened Contents
  import opened Histories

  datatype EntryKind = TextKind | ImageKind | MixedKind

  datatype Summary = Summary(
    id: nat, timestampMillis: nat, kind: EntryKind, primaryMime: Mime, preview: string, hasText: bool)

  function TruncatePreview(s: string, maxChars: nat): (r: string)
    ensures r <= s && |r| == if |s| < maxChars then |s| else maxChars
  {
    if |s| <= maxChars then s else s[..maxChars]
  }

  function Millis(timestamp: int): nat {
    if timestamp < 0 then 0 else timestamp % 0x1_0000_0000_0000_0000
  }

  function SummaryOf(e: Entry): Summary {
    var kind := match e.content
      case Text(_) => TextKind
      case Image(_) => ImageKind
      case Mixed(_, _) => MixedKind;
    Summary(e.id, Millis(e.timestamp), kind, PrimaryOf(e.content),
            TruncatePreview(Preview(e.content), PREVIEW_CHARS), HasText(e.content))
  }

  function Rows(entries: seq<Entry>): (r: seq<Summary>)
    ensures |r| == |entries|
  {
    Map(SummaryOf, entries)
  }

  /** `n` is the least of the three. */
  predicate IsLeast(n: nat, a: nat, b: nat, c: nat) {
    n <= a && n <= b && n <= c && (n == a || n == b || n == c)
  }

  function ClampLimit(limit: nat): nat {
    if limit < MAX_LIST_LIMIT then limit else MAX_LIST_LIMIT
  }

  /** One page: skip `offset` rows, take at most the clamped limit. */
  function Page(rows: seq<Summary>, offset: nat, limit: nat): (nat, seq<Summary>) {
    var rest := if offset <= |rows| then rows[offset..] else [];
    var k := ClampLimit(limit);
    (|rows|, if k <= |rest| then rest[..k] else rest)
  }

  class Snapshot {
    var rows: seq<Summary>

    constructor ()
      ensures rows == []
    {
      rows := [];
    }

    method PushSummary(summary: Summary)
      modifies this
      ensures rows == Last(old(rows) + [summary], MAX_HISTORY)
    {
      rows := rows + [summary];
      ghost var all := rows;
      while |rows| > MAX_HISTORY
        invariant |rows| >= MAX_HISTORY || rows == all
        invariant |rows| <= |all| && rows == all[|all| - |rows|..]
      {
        rows := rows[1..];
      }
    }

    static method ListSnapshot(snap: seq<Summary>, offset: nat, limit: nat) returns (total: nat, page: seq<Summary>)
      ensures (total, page) == Page(snap, offset, limit)
      ensures total == |snap| && IsLeast(|page|, limit, MAX_LIST_LIMIT, if offset < |snap| then |snap| - offset else 0)
      ensures forall i :: 0 <= i < |page| ==> offset + i < |snap| && page[i] == snap[offset + i]
    {
      total := |snap|;
      var count := ClampLimit(limit);
      var rest := if offset <= |snap| then snap[offset..] else [];
      page := if count <= |rest| then rest[..count] else rest;
    }
  }

  /** Every page from `offset` on, each starting where the previous one had to end. */
  function PagesFrom(rows: seq<Summary>, offset: nat, limit: nat): seq<Summary>
    requires limit >= 1
    decreases if offset < |rows| then |rows| - offset else 0
  {
    if offset >= |rows| then []
    else Page(rows, offset, limit).1 + PagesFrom(rows, offset + ClampLimit(limit), limit)
  }

  /** Paging partitions the snapshot: walked with the clamped limit, the pages concatenate to all rows. */
  lemma {:induction false} PagesPartition(rows: seq<Summary>, offset: nat, limit: nat)
    requires limit >= 1 && offset <= |rows|
    ensures PagesFrom(rows, offset, limit) == rows[offset..]
    decreases |rows| - offset
  {
    if offset < |rows| {
      var next := offset + ClampLimit(limit);
      if next <= |rows| {
        PagesPartition(rows, next, limit);
        assert rows[offset..] == rows[offset..next] + rows[next..];
      }
    }
  }
}
