/** Building blocks of concrete runs: an oracle, a clock, copies and restores on their own. */
module Scenarios {
  import opened Config
  import opened Seqs
  import opened Mimes
  import opened Contents
  import opened Histories
  import opened Snapshots
  import opened Drains
  import opened Wire
  import opened AppStates
  import opened EventLoops
  import opened Mirrors
  import opened Batches
  import opened Copies
  import opened Lifetimes
  import opened EchoRuns
  import opened RoundTrips

  // ---- An oracle and a clock ----

  ghost function InSomeOrder(keys: set<Mime>): (r: seq<Mime>)
    ensures multiset(r) == multiset(keys)
    decreases |keys|
  {
    if keys == {} then []
    else
      var x :| x in keys;
      [x] + InSomeOrder(keys - {x})
  }

  /** Iteration orders exist for all maps at once. */
  ghost function SomeOracle(): (o: Oracle)
    ensures ValidOracle(o)
  {
    Oracle((n: nat, keys: set<Mime>) => InSomeOrder(keys), (n: nat) => 0)
  }

  /** A clock that stands still, so that no window ever ends. */
  ghost function Stopped(utf8: Decoder): (env: Env)
    ensures env.utf8 == utf8
    ensures forall armed: Armed, n: nat :: armed.at == 0.0 ==> InWindow(env, armed, n)
  {
    Env(utf8, (n: nat) => 0.0)
  }

  // ---- A copy on its own ----

  function CopyAlone(o: Oracle, offer: Offer, mimes: seq<Mime>, answers: Answers): Input {
    Input(CopyEvents(offer, mimes, answers), o, [])
  }

  lemma {:induction false} UnarmedKeeps(env: Env, s: Loop, ids: seq<nat>)
    requires s.echo == None
    ensures var t := ExamineAll(env, s, ids); t.app == s.app && t.echo == None && t.suppressed == s.suppressed
  {
    if ids != [] {
      UnarmedKeeps(env, s, ids[..|ids| - 1]);
      ExamineCases(env, ExamineAll(env, s, ids[..|ids| - 1]), ids[|ids| - 1]);
    }
  }

  /** What a copy on its own makes of an unarmed loop. */
  lemma CopyTurn(env: Env, o: Oracle, s: Loop, offer: Offer, mimes: seq<Mime>, answers: Answers)
    requires ValidOracle(o) && s.echo == None && s.app.pending == []
    requires s.app.selection.Some? ==> s.app.selection.value.pid != offer.pid
    requires Delivered(mimes, answers) != map[]
    ensures ValidInput(CopyAlone(o, offer, mimes, answers))
    ensures var t := Iterate(env, s, CopyAlone(o, offer, mimes, answers));
            var c := ContentAt(env.utf8, o, Delivered(mimes, answers), 0);
            && c.Some? && t.app.history == Add(s.app.history, c, o.stamps(0)).0
            && t.app.manager == s.app.manager && t.app.device == s.app.device
            && t.app.selection == Some(offer) && t.app.pending == [] && t.echo == None && t.suppressed == s.suppressed
            && t.restored == s.restored
  {
    var i := CopyAlone(o, offer, mimes, answers);
    var (s1, outcomes) := Collect(env, s, i);
    CopyQueues(s.app, offer, mimes, answers);
    CopyAdds(env.utf8, o, s.app, offer, mimes, answers);
    UnarmedKeeps(env, s1, StoredIds(outcomes));
    ExaminedPending(env, s, i);
  }

  // ---- A restore on its own ----

  function RestoreAlone(o: Oracle, id: nat): Input {
    Input([], o, [Request(id, o)])
  }

  lemma EmptyDrain(env: Env, s: Loop, i: Input)
    requires ValidInput(i) && i.events == [] && s.app.pending == []
    ensures Collect(env, s, i) == (s, []) && Examined(env, s, i) == s
  {
    var ids := set id | id in Gather(s.app.pending).order;
    assert ids == {} && s.app.offers - ids == s.app.offers;
    assert Drain(env.utf8, i.oracle, s.app).1 == [];
  }

  lemma ServeOne(env: Env, s: Loop, q: Request)
    requires ValidOracle(q.oracle)
    ensures ServeAll(env, s, [q]) == Serve(env, s, q).0 && ServeAll(env, s, [q][..0]) == s
  {
    assert [q][..0] == [];
  }

  lemma ServeRestores(env: Env, s: Loop, q: Request)
    requires ValidOracle(q.oracle) && s.app.manager && s.app.device && Find(s.app.history.entries, q.entryId).Some?
    ensures var (t, result) := Serve(env, s, q);
            && result == Restored && t.app.history == s.app.history
            && t.app.pending == s.app.pending && t.app.selection == s.app.selection
            && t.mirror == s.mirror && t.events == s.events && t.suppressed == s.suppressed
            && |t.restored| == |s.restored| + 1
  {
  }

  /** One more turn, in which nothing happens but a restore, which succeeds. */
  lemma RestoreEnds(env: Env, o: Oracle, inputs: seq<Input>, e: Entry)
    requires (forall i :: i in inputs ==> ValidInput(i)) && ValidOracle(o)
    requires var a := RunLoop(env, BOOT, inputs).app;
             a.manager && a.device && a.pending == [] && Find(a.history.entries, e.id) == Some(e)
    ensures forall i :: i in inputs + [RestoreAlone(o, e.id)] ==> ValidInput(i)
    ensures EndsWithRestore(env, inputs + [RestoreAlone(o, e.id)], 0, Request(e.id, o), e.content)
    ensures var s, t := RunLoop(env, BOOT, inputs), RunLoop(env, BOOT, inputs + [RestoreAlone(o, e.id)]);
            && t.app.history == s.app.history && t.mirror == s.mirror && t.events == s.events
            && t.suppressed == s.suppressed && |t.restored| == |s.restored| + 1
  {
    var all, q := inputs + [RestoreAlone(o, e.id)], Request(e.id, o);
    var s := RunLoop(env, BOOT, inputs);
    assert all[..|inputs|] == inputs && all[|inputs|] == RestoreAlone(o, e.id);
    assert ValidInput(RestoreAlone(o, e.id));
    EmptyDrain(env, s, RestoreAlone(o, e.id));
    ServeOne(env, s, q);
    ServeRestores(env, s, q);
    assert BeforeServing(env, all, 0) == s;
  }

  // ---- A silent turn ----

  /** A turn that created an entry but announced none has suppressed it. */
  lemma SilentSuppresses(env: Env, t: Loop, i: Input)
    requires ValidInput(i) && HistoryOk(t.app.history)
    requires Fresh(env, t, i) != [] && Iterate(env, t, i).events == t.events
    ensures TurnSuppresses(env, t, i)
  {
    var announced := TurnHasEffect(env, t, i);
    ServeAllKeeps(env, Examined(env, t, i), i.requests);
    assert |Examined(env, t, i).events| == |t.events| + |Rows(announced)|;
  }

  lemma RunNext(env: Env, inputs: seq<Input>, i: Input)
    requires (forall x :: x in inputs ==> ValidInput(x)) && ValidInput(i)
    ensures forall x :: x in inputs + [i] ==> ValidInput(x)
    ensures RunLoop(env, BOOT, inputs + [i]) == Iterate(env, RunLoop(env, BOOT, inputs), i)
  {
    assert (inputs + [i])[..|inputs|] == inputs;
  }

  // ---- What is picked from a short offer ----

  lemma {:induction false} NoDupCard(s: seq<Mime>)
    requires NoDup(s)
    ensures |set m | m in s| == |s|
  {
    if s != [] {
      NoDupCard(s[1..]);
      assert (set m | m in s) == {s[0]} + set m | m in s[1..];
    }
  }

  /** All eligible types of an offer of at most four are picked. */
  lemma ShortOfferPicked(offered: seq<Mime>, m: Mime)
    requires |offered| <= MAX_MIMES_PER_SELECTION && m in offered && Eligible(m)
    ensures m in Pick(offered)
  {
    var p := Pick(offered);
    PickIsSelection(offered);
    assert m in Candidates(offered);
    if m !in p {
      var picked, all := set x | x in p, set x | x in offered;
      NoDupCard(p);
      SetOfSeq(offered);
      assert picked <= all - {m};
      SubsetCard(picked, all - {m});
    }
  }
}
