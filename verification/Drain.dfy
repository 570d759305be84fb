/** `src/clipboard/io.rs`: bounded reads, grouping by offer, one history entry per copy. */
module Drains {
  import opened Config
  import opened Seqs
  import opened Contents
  import opened Histories

  /** What a pipe yields when it is read: all bytes the sender wrote, or an I/O error. */
  datatype ReadResult = Sent(bytes: Bytes) | Broken(error: string)

  datatype Read = Read(offerId: nat, mime: Mime, result: ReadResult)

  datatype ReadOutcome =
    | Stored(entryId: nat, primaryMime: Mime)
    | IgnoredDuplicate(primaryMime: Mime)
    | Truncated(mime: Mime, originalBytes: nat)
    | ReadError(mime: Mime, error: string)

  /** The iteration order of the n-th hash map with the given keys, and the n-th `SystemTime::now()`. */
  datatype Oracle = Oracle(hash: (nat, set<Mime>) -> seq<Mime>, stamps: nat -> int)

  ghost predicate ValidOracle(o: Oracle) {
    forall n, keys :: multiset(o.hash(n, keys)) == multiset(keys)
  }

  function Bounded(sent: Bytes): (r: Bytes)
    ensures r <= sent && |r| == if |sent| < MAX_CONTENT_BYTES then |sent| else MAX_CONTENT_BYTES
  {
    if |sent| <= MAX_CONTENT_BYTES then sent else sent[..MAX_CONTENT_BYTES]
  }

  method ReadBounded(sent: Bytes) returns (buf: Bytes, truncated: bool)
    ensures buf == Bounded(sent)
    ensures truncated <==> |sent| > MAX_CONTENT_BYTES
  {
    var limit := MAX_CONTENT_BYTES + 1;
    buf := if |sent| <= limit then sent else sent[..limit];
    truncated := |buf| > MAX_CONTENT_BYTES;
    if truncated {
      buf := buf[..MAX_CONTENT_BYTES];
    }
  }

  // ---- Grouping ----

  datatype Batch = Batch(order: seq<nat>, groups: map<nat, Blobs>, outcomes: seq<ReadOutcome>)

  function GroupOf(b: Batch, id: nat): Blobs {
    if id in b.groups then b.groups[id] else map[]
  }

  function GatherOne(b: Batch, r: Read): Batch {
    match r.result
    case Broken(error) => b.(outcomes := b.outcomes + [ReadError(r.mime, error)])
    case Sent(bytes) =>
      var outcomes :=
        b.outcomes + if |bytes| > MAX_CONTENT_BYTES then [Truncated(r.mime, MAX_CONTENT_BYTES + 1)] else [];
      if bytes == [] then b.(outcomes := outcomes)
      else Batch(if r.offerId in b.groups then b.order else b.order + [r.offerId],
                 b.groups[r.offerId := GroupOf(b, r.offerId)[r.mime := Bounded(bytes)]],
                 outcomes)
  }

  function Gather(queue: seq<Read>): Batch {
    if queue == [] then Batch([], map[], [])
    else GatherOne(Gather(queue[..|queue| - 1]), queue[|queue| - 1])
  }

  predicate Delivers(r: Read, id: nat) {
    r.offerId == id && r.result.Sent? && r.result.bytes != []
  }

  /** The first read that delivers bytes for the offer, or the length of the queue. */
  function FirstDelivery(queue: seq<Read>, id: nat): (k: nat)
    ensures k <= |queue|
    ensures k < |queue| ==> Delivers(queue[k], id)
    ensures forall i :: 0 <= i < k ==> !Delivers(queue[i], id)
  {
    if queue == [] then 0 else if Delivers(queue[0], id) then 0 else 1 + FirstDelivery(queue[1..], id)
  }

  /** The last non-empty payload read for the offer and type. */
  function LastPayload(queue: seq<Read>, id: nat, mime: Mime): Option<Bytes> {
    if queue == [] then None
    else
      var r := queue[|queue| - 1];
      if Delivers(r, id) && r.mime == mime then Some(Bounded(r.result.bytes))
      else LastPayload(queue[..|queue| - 1], id, mime)
  }

  predicate IsError(o: ReadOutcome) { o.ReadError? }

  predicate IsTruncation(o: ReadOutcome) { o.Truncated? }

  predicate Fails(r: Read) { r.result.Broken? }

  predicate IsOversized(r: Read) { r.result.Sent? && |r.result.bytes| > MAX_CONTENT_BYTES }

  function CountErrors(outcomes: seq<ReadOutcome>): nat {
    |Filter(IsError, outcomes)|
  }

  function CountTruncated(outcomes: seq<ReadOutcome>): nat {
    |Filter(IsTruncation, outcomes)|
  }

  /** Each group maps a type to its last non-empty payload, and only offers that delivered have a group. */
  lemma {:induction false} GatherGroups(queue: seq<Read>, id: nat, mime: Mime)
    ensures id in Gather(queue).groups <==> exists r :: r in queue && Delivers(r, id)
    ensures LastPayload(queue, id, mime) ==
            if mime in GroupOf(Gather(queue), id) then Some(GroupOf(Gather(queue), id)[mime]) else None
    ensures id in Gather(queue).groups ==> Gather(queue).groups[id] != map[]
  {
    if queue != [] {
      var front, r := queue[..|queue| - 1], queue[|queue| - 1];
      GatherGroups(front, id, mime);
      assert queue == front + [r];
      if Delivers(r, id) {
        assert r in queue;
        assert r.mime in Gather(queue).groups[id];
      }
    }
  }

  lemma {:induction false} FirstDeliveryAppend(queue: seq<Read>, r: Read, id: nat)
    ensures FirstDelivery(queue + [r], id) ==
            if FirstDelivery(queue, id) < |queue| then FirstDelivery(queue, id)
            else if Delivers(r, id) then |queue| else |queue| + 1
  {
    if queue == [] {
      assert ([r] + queue)[1..] == [];
    } else {
      FirstDeliveryAppend(queue[1..], r, id);
      assert (queue + [r])[1..] == queue[1..] + [r];
    }
  }

  ghost predicate ByFirstDelivery(queue: seq<Read>, order: seq<nat>) {
    && (forall i :: 0 <= i < |order| ==> FirstDelivery(queue, order[i]) < |queue|)
    && (forall i, j :: 0 <= i < j < |order| ==> FirstDelivery(queue, order[i]) < FirstDelivery(queue, order[j]))
  }

  lemma FirstDeliveryNone(queue: seq<Read>, id: nat, mime: Mime)
    requires id !in Gather(queue).groups
    ensures FirstDelivery(queue, id) == |queue|
  {
    GatherGroups(queue, id, mime);
    assert forall k :: 0 <= k < |queue| ==> queue[k] in queue;
  }

  lemma OrderStep(front: seq<Read>, r: Read, order: seq<nat>)
    requires ByFirstDelivery(front, order)
    ensures ByFirstDelivery(front + [r], order)
    ensures forall i :: 0 <= i < |order| ==> FirstDelivery(front + [r], order[i]) < |front|
  {
    forall i | 0 <= i < |order| ensures FirstDelivery(front + [r], order[i]) == FirstDelivery(front, order[i]) {
      FirstDeliveryAppend(front, r, order[i]);
    }
  }

  lemma NewLast(front: seq<Read>, r: Read, order: seq<nat>)
    requires ByFirstDelivery(front, order)
    requires Delivers(r, r.offerId) && FirstDelivery(front, r.offerId) == |front|
    ensures ByFirstDelivery(front + [r], order + [r.offerId])
  {
    var queue, all := front + [r], order + [r.offerId];
    OrderStep(front, r, order);
    FirstDeliveryAppend(front, r, r.offerId);
    forall i | 0 <= i < |all| ensures FirstDelivery(queue, all[i]) < |queue| {
      assert all[i] == if i < |order| then order[i] else r.offerId;
    }
    forall i, j | 0 <= i < j < |all| ensures FirstDelivery(queue, all[i]) < FirstDelivery(queue, all[j]) {
      assert all[i] == order[i];
      assert all[j] == if j < |order| then order[j] else r.offerId;
    }
  }

  /** The groups are listed once each, by their first delivery. */
  lemma {:induction false} GatherOrder(queue: seq<Read>)
    ensures ByFirstDelivery(queue, Gather(queue).order)
  {
    if queue != [] {
      var front, r := queue[..|queue| - 1], queue[|queue| - 1];
      GatherOrder(front);
      OrderStep(front, r, Gather(front).order);
      assert queue == front + [r];
      if Gather(queue).order != Gather(front).order {
        FirstDeliveryNone(front, r.offerId, r.mime);
        NewLast(front, r, Gather(front).order);
      }
    }
  }

  lemma FilterAppend<T(!new)>(p: T -> bool, s: seq<T>, x: T)
    ensures Filter(p, s + [x]) == Filter(p, s) + if p(x) then [x] else []
  {
    if s == [] {
      assert s + [x] == [x];
    } else {
      FilterAppend(p, s[1..], x);
      assert (s + [x])[1..] == s[1..] + [x];
    }
  }

  lemma GatherOneCounts(b: Batch, r: Read)
    ensures var c := GatherOne(b, r);
            && CountErrors(c.outcomes) == CountErrors(b.outcomes) + (if Fails(r) then 1 else 0)
            && CountTruncated(c.outcomes) == CountTruncated(b.outcomes) + (if IsOversized(r) then 1 else 0)
            && (forall o :: o in c.outcomes && o !in b.outcomes ==> IsError(o) || IsTruncation(o))
  {
    assert b.outcomes + [] == b.outcomes;
    var o := if r.result.Broken? then ReadError(r.mime, r.result.error) else Truncated(r.mime, MAX_CONTENT_BYTES + 1);
    FilterAppend(IsError, b.outcomes, o);
    FilterAppend(IsTruncation, b.outcomes, o);
  }

  /** One error per failed read, one truncation per oversized read. */
  lemma {:induction false} GatherCounts(queue: seq<Read>)
    ensures CountErrors(Gather(queue).outcomes) == |Filter(Fails, queue)|
    ensures CountTruncated(Gather(queue).outcomes) == |Filter(IsOversized, queue)|
    ensures forall o :: o in Gather(queue).outcomes ==> IsError(o) || IsTruncation(o)
  {
    if queue != [] {
      var front, r := queue[..|queue| - 1], queue[|queue| - 1];
      GatherCounts(front);
      GatherOneCounts(Gather(front), r);
      FilterAppend(Fails, front, r);
      FilterAppend(IsOversized, front, r);
      assert queue == front + [r];
    }
  }

  // ---- What is reported ----

  function ErrorOf(r: Read): ReadOutcome {
    ReadError(r.mime, if r.result.Broken? then r.result.error else "")
  }

  function TruncationOf(r: Read): ReadOutcome {
    Truncated(r.mime, MAX_CONTENT_BYTES + 1)
  }

  lemma MapSnoc<A, B>(f: A -> B, s: seq<A>, x: A)
    ensures Map(f, s + [x]) == Map(f, s) + [f(x)]
    ensures Map(f, s + []) == Map(f, s)
  {
    MapAppend(f, s, [x]);
    assert s + [] == s;
  }

  lemma MapFilterSnoc<A(!new), B>(f: A -> B, p: A -> bool, s: seq<A>, x: A)
    ensures Map(f, Filter(p, s + [x])) == Map(f, Filter(p, s)) + if p(x) then [f(x)] else []
  {
    FilterAppend(p, s, x);
    MapSnoc(f, Filter(p, s), x);
  }

  lemma GatherOneErrors(b: Batch, r: Read)
    ensures Filter(IsError, GatherOne(b, r).outcomes) ==
            Filter(IsError, b.outcomes) + if Fails(r) then [ErrorOf(r)] else []
  {
    assert b.outcomes + [] == b.outcomes;
    FilterAppend(IsError, b.outcomes, if r.result.Broken? then ErrorOf(r) else TruncationOf(r));
  }

  lemma GatherOneTruncations(b: Batch, r: Read)
    ensures Filter(IsTruncation, GatherOne(b, r).outcomes) ==
            Filter(IsTruncation, b.outcomes) + if IsOversized(r) then [TruncationOf(r)] else []
  {
    assert b.outcomes + [] == b.outcomes;
    FilterAppend(IsTruncation, b.outcomes, if r.result.Broken? then ErrorOf(r) else TruncationOf(r));
  }

  /** Each failed read is reported with its type and error, in the order of the queue. */
  lemma {:induction false} ErrorsReported(queue: seq<Read>)
    ensures Filter(IsError, Gather(queue).outcomes) == Map(ErrorOf, Filter(Fails, queue))
  {
    if queue != [] {
      var front, r := queue[..|queue| - 1], queue[|queue| - 1];
      ErrorsReported(front);
      GatherOneErrors(Gather(front), r);
      MapFilterSnoc(ErrorOf, Fails, front, r);
      assert queue == front + [r];
    }
  }

  /** Each oversized read is reported with its type, in the order of the queue. */
  lemma {:induction false} TruncationsReported(queue: seq<Read>)
    ensures Filter(IsTruncation, Gather(queue).outcomes) == Map(TruncationOf, Filter(IsOversized, queue))
  {
    if queue != [] {
      var front, r := queue[..|queue| - 1], queue[|queue| - 1];
      TruncationsReported(front);
      GatherOneTruncations(Gather(front), r);
      MapFilterSnoc(TruncationOf, IsOversized, front, r);
      assert queue == front + [r];
    }
  }

  // ---- Committing the groups ----

  /** The content of the `i`-th group that is committed. */
  function ContentAt(utf8: Decoder, o: Oracle, blobs: Blobs, i: nat): Option<Content>
    requires ValidOracle(o)
  {
    FromBlobs(utf8, blobs, o.hash(2 * i, blobs.Keys), o.hash(2 * i + 1, TextBlobs(blobs).Keys))
  }

  /** The type named for a duplicate. */
  function Label(blobs: Blobs, order: seq<Mime>): Mime
    requires IsIteration(order, blobs) && blobs != map[]
  {
    IterationKeys(order, blobs);
    if PLAIN_UTF8 in blobs then PLAIN_UTF8 else if PLAIN in blobs then PLAIN else Least(order)
  }

  function CommitOne(utf8: Decoder, o: Oracle, h: History, blobs: Blobs, i: nat): (History, seq<ReadOutcome>)
    requires ValidOracle(o)
  {
    if blobs == map[] then (h, [])
    else
      var content := ContentAt(utf8, o, blobs, i);
      var (h', id) := Add(h, content, o.stamps(i));
      (h', [if id.Some? then Stored(id.value, PrimaryOf(content.value))
            else IgnoredDuplicate(Label(blobs, o.hash(2 * i, blobs.Keys)))])
  }

  function CommitAll(utf8: Decoder, o: Oracle, h: History, order: seq<nat>, b: Batch): (History, seq<ReadOutcome>)
    requires ValidOracle(o)
  {
    if order == [] then (h, [])
    else
      var i := |order| - 1;
      var (h', outcomes) := CommitAll(utf8, o, h, order[..i], b);
      var (h'', more) := CommitOne(utf8, o, h', GroupOf(b, order[i]), i);
      (h'', outcomes + more)
  }

  /** Every group holds at least one blob, and no blob is empty. */
  ghost predicate GroupsOk(b: Batch) {
    && (forall id :: id in b.order <==> id in b.groups)
    && (forall id :: id in b.groups ==> b.groups[id] != map[] && NonEmpty(b.groups[id]) == b.groups[id])
  }

  lemma {:induction false} GatherOk(queue: seq<Read>)
    ensures GroupsOk(Gather(queue))
  {
    if queue != [] {
      var front, r := Gather(queue[..|queue| - 1]), queue[|queue| - 1];
      GatherOk(queue[..|queue| - 1]);
      if r.result.Sent? && r.result.bytes != [] {
        var group := GroupOf(front, r.offerId)[r.mime := Bounded(r.result.bytes)];
        assert r.mime in group && NonEmpty(group) == group;
      }
    }
  }

  lemma ContentAtSome(utf8: Decoder, o: Oracle, blobs: Blobs, i: nat)
    requires ValidOracle(o) && blobs != map[] && NonEmpty(blobs) == blobs
    ensures var c := ContentAt(utf8, o, blobs, i); c.Some? && Representations(c.value) == blobs
  {
    RepresentationsLossless(utf8, blobs, o.hash(2 * i, blobs.Keys), o.hash(2 * i + 1, TextBlobs(blobs).Keys));
  }

  /** The store that committing a group amounts to. */
  function StoreOf(utf8: Decoder, o: Oracle, blobs: Blobs, i: nat): (op: Op)
    requires ValidOracle(o) && blobs != map[] && NonEmpty(blobs) == blobs
    ensures op.Store? && Some(op.content) == ContentAt(utf8, o, blobs, i) && Representations(op.content) == blobs
  {
    ContentAtSome(utf8, o, blobs, i);
    Store(ContentAt(utf8, o, blobs, i).value, o.stamps(i))
  }

  ghost predicate Committable(order: seq<nat>, b: Batch) {
    forall k :: 0 <= k < |order| ==>
      order[k] in b.groups && b.groups[order[k]] != map[] && NonEmpty(b.groups[order[k]]) == b.groups[order[k]]
  }

  /** The stores a drain performs, in order. */
  function StoreOps(utf8: Decoder, o: Oracle, order: seq<nat>, b: Batch): (ops: seq<Op>)
    requires ValidOracle(o) && Committable(order, b)
    ensures |ops| == |order|
    ensures forall i :: 0 <= i < |ops| ==> ops[i] == StoreOf(utf8, o, b.groups[order[i]], i)
  {
    seq(|order|, i requires 0 <= i < |order| => StoreOf(utf8, o, b.groups[order[i]], i))
  }

  function StoredIds(outcomes: seq<ReadOutcome>): seq<nat> {
    if outcomes == [] then []
    else
      var last := outcomes[|outcomes| - 1];
      StoredIds(outcomes[..|outcomes| - 1]) + if last.Stored? then [last.entryId] else []
  }

  lemma {:induction false} StoredIdsAppend(a: seq<ReadOutcome>, b: seq<ReadOutcome>)
    ensures StoredIds(a + b) == StoredIds(a) + StoredIds(b)
  {
    if b == [] {
      assert a + b == a;
    } else {
      StoredIdsAppend(a, b[..|b| - 1]);
      assert (a + b)[..|a + b| - 1] == a + b[..|b| - 1];
    }
  }

  /** The name of a duplicate is the UTF-8 plain type if it is there, else the plain one, else the smallest. */
  ghost predicate Names(mime: Mime, blobs: Blobs) {
    && mime in blobs
    && (PLAIN_UTF8 in blobs ==> mime == PLAIN_UTF8)
    && (PLAIN_UTF8 !in blobs && PLAIN in blobs ==> mime == PLAIN)
    && (PLAIN_UTF8 !in blobs && PLAIN !in blobs ==> forall m :: m in blobs ==> StrLe(mime, m))
  }

  /** `IgnoredDuplicate` exactly when the content equals the newest entry, else `Stored` with the next id. */
  ghost predicate OutcomeOf(before: History, op: Op, outcome: ReadOutcome) {
    op.Store? &&
    if before.entries != [] && before.entries[|before.entries| - 1].content == op.content
    then outcome.IgnoredDuplicate? && Names(outcome.primaryMime, Representations(op.content))
    else outcome.Stored? && outcome.entryId == before.nextId && outcome.primaryMime == PrimaryOf(op.content)
  }

  lemma LabelNames(blobs: Blobs, order: seq<Mime>)
    requires IsIteration(order, blobs) && blobs != map[]
    ensures Names(Label(blobs, order), blobs)
  {
    IterationKeys(order, blobs);
  }

  lemma CommitOneRefines(utf8: Decoder, o: Oracle, h: History, blobs: Blobs, i: nat)
    requires ValidOracle(o) && blobs != map[] && NonEmpty(blobs) == blobs
    ensures var op, r := StoreOf(utf8, o, blobs, i), CommitOne(utf8, o, h, blobs, i);
            && r.0 == Apply(h, op).0
            && |r.1| == 1 && OutcomeOf(h, op, r.1[0])
            && (Apply(h, op).1 == if r.1[0].Stored? then Some(r.1[0].entryId) else None)
  {
    ContentAtSome(utf8, o, blobs, i);
    LabelNames(blobs, o.hash(2 * i, blobs.Keys));
  }

  lemma CommittableSnoc(front: seq<nat>, id: nat, b: Batch)
    requires Committable(front + [id], b)
    ensures Committable(front, b) && id in b.groups && b.groups[id] != map[] && NonEmpty(b.groups[id]) == b.groups[id]
  {
    assert (front + [id])[|front|] == id;
    forall k | 0 <= k < |front|
      ensures front[k] in b.groups && b.groups[front[k]] != map[] && NonEmpty(b.groups[front[k]]) == b.groups[front[k]]
    {
      assert (front + [id])[k] == front[k];
    }
  }

  lemma StoreOpsSnoc(utf8: Decoder, o: Oracle, front: seq<nat>, id: nat, b: Batch)
    requires ValidOracle(o) && Committable(front + [id], b) && Committable(front, b)
    requires id in b.groups && b.groups[id] != map[] && NonEmpty(b.groups[id]) == b.groups[id]
    ensures StoreOps(utf8, o, front + [id], b) ==
            StoreOps(utf8, o, front, b) + [StoreOf(utf8, o, b.groups[id], |front|)]
  {
    var all, last := front + [id], StoreOf(utf8, o, b.groups[id], |front|);
    var ops, opsF := StoreOps(utf8, o, all, b), StoreOps(utf8, o, front, b);
    forall k | 0 <= k < |ops| ensures ops[k] == (opsF + [last])[k] {
      if k < |front| {
        assert all[k] == front[k];
      } else {
        assert all[k] == id;
      }
    }
  }

  lemma GatherCommittable(queue: seq<Read>)
    ensures Committable(Gather(queue).order, Gather(queue))
  {
    GatherOk(queue);
  }

  lemma RunAppend(h: History, ops: seq<Op>, op: Op)
    ensures Run(h, ops + [op]) == Apply(Run(h, ops), op).0
    ensures Issued(h, ops + [op]) ==
            match Apply(Run(h, ops), op).1
            case None => Issued(h, ops)
            case Some(id) => Issued(h, ops) + [id]
  {
    assert (ops + [op])[..|ops + [op]| - 1] == ops;
  }

  /** The run, its ids and its outcomes agree. */
  ghost predicate Refines(h: History, ops: seq<Op>, r: (History, seq<ReadOutcome>)) {
    && r.0 == Run(h, ops) && |r.1| == |ops| && StoredIds(r.1) == Issued(h, ops)
    && forall i :: 0 <= i < |ops| ==> OutcomeOf(Run(h, ops[..i]), ops[i], r.1[i])
  }

  lemma OutcomesSnoc(h: History, ops: seq<Op>, outcomes: seq<ReadOutcome>, op: Op, last: ReadOutcome)
    requires |outcomes| == |ops| && forall i :: 0 <= i < |ops| ==> OutcomeOf(Run(h, ops[..i]), ops[i], outcomes[i])
    requires OutcomeOf(Run(h, ops), op, last)
    ensures forall i :: 0 <= i <= |ops| ==>
              OutcomeOf(Run(h, (ops + [op])[..i]), (ops + [op])[i], (outcomes + [last])[i])
  {
    forall i | 0 <= i <= |ops| ensures OutcomeOf(Run(h, (ops + [op])[..i]), (ops + [op])[i], (outcomes + [last])[i]) {
      assert (ops + [op])[..i] == ops[..i];
      assert ops[..|ops|] == ops;
    }
  }

  lemma StoredIdsSnoc(outcomes: seq<ReadOutcome>, last: ReadOutcome)
    ensures StoredIds(outcomes + [last]) == StoredIds(outcomes) + if last.Stored? then [last.entryId] else []
  {
    StoredIdsAppend(outcomes, [last]);
    assert [last][..0] == [];
  }

  lemma RefinesSnoc(h: History, ops: seq<Op>, r: (History, seq<ReadOutcome>), op: Op, next: (History, seq<ReadOutcome>))
    requires Refines(h, ops, r) && |next.1| == 1 && next.0 == Apply(r.0, op).0 && OutcomeOf(r.0, op, next.1[0])
    requires Apply(r.0, op).1 == if next.1[0].Stored? then Some(next.1[0].entryId) else None
    ensures Refines(h, ops + [op], (next.0, r.1 + next.1))
  {
    assert next.1 == [next.1[0]];
    RunAppend(h, ops, op);
    StoredIdsSnoc(r.1, next.1[0]);
    OutcomesSnoc(h, ops, r.1, op, next.1[0]);
  }

  /** Committing refines the history run of the stores: the same history and the same ids, with
      exactly one outcome for each offer in commit order. */
  lemma {:induction false} CommitRefinesRun(utf8: Decoder, o: Oracle, h: History, order: seq<nat>, b: Batch)
    requires ValidOracle(o) && Committable(order, b)
    ensures Refines(h, StoreOps(utf8, o, order, b), CommitAll(utf8, o, h, order, b))
  {
    if order != [] {
      var n := |order| - 1;
      var front, id := order[..n], order[n];
      assert order == front + [id];
      CommittableSnoc(front, id, b);
      StoreOpsSnoc(utf8, o, front, id, b);
      CommitRefinesRun(utf8, o, h, front, b);
      var r := CommitAll(utf8, o, h, front, b);
      CommitOneRefines(utf8, o, r.0, b.groups[id], n);
      RefinesSnoc(h, StoreOps(utf8, o, front, b), r, StoreOf(utf8, o, b.groups[id], n),
                  CommitOne(utf8, o, r.0, b.groups[id], n));
    }
  }
}
