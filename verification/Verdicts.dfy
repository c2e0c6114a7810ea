/** What one complete pass of agent/internal/apply/apply.go says of each op, in terms of the
    handlers, the dependencies' results and the journal it started from. */
module Verdicts {
  import opened Wrappers
  import opened Dsd
  import opened Journal
  import opened Apply
  import opened Resume
  import opened CrashResume

  ghost predicate NoRun(es: seq<Effect>, id: string) {
    forall i :: 0 <= i < |es| && es[i].Ran? ==> es[i].opId != id
  }

  /** The op was given to its handler once, and this is how that ended. */
  ghost predicate RanOnce(es: seq<Effect>, id: string, ok: bool) {
    && (exists i :: 0 <= i < |es| && es[i] == Ran(id, ok))
    && (forall i, j :: 0 <= i < j < |es| && es[i].Ran? && es[j].Ran? ==> es[i].opId != id || es[j].opId != id)
  }

  /** Where the result of `id` comes from, and whether its handler was called for it. */
  ghost predicate Told(r: Registry, g: Graph, v: Version, before: View, p: Pass, id: string) {
    && id in g && id in p.results
    && var res := p.results[id];
       if Doomed(g, id) || res.state.Skipped? then NoRun(p.effects, id)
       else if AppliedIn(before, v, id) then res == before.rows[Slot(v, id)] && NoRun(p.effects, id)
       else
         && res == Execute(r, v, g[id])
         && if g[id].kind in r.handlers then RanOnce(p.effects, id, res.state.Applied?) else NoRun(p.effects, id)
  }

  ghost predicate AllTold(r: Registry, g: Graph, v: Version, before: View, p: Pass) {
    && (forall id :: id in p.results ==> Told(r, g, v, before, p, id))
    && (forall i :: 0 <= i < |p.effects| && p.effects[i].Ran? ==> p.effects[i].opId in p.results)
  }

  lemma {:induction false} RunsElsewhere(es: seq<Effect>, more: seq<Effect>, id: string)
    requires NoRun(more, id)
    ensures NoRun(es, id) <==> NoRun(es + more, id)
    ensures forall ok :: RanOnce(es, id, ok) ==> RanOnce(es + more, id, ok)
  {
    forall i | 0 <= i < |es + more| ensures (es + more)[i] == if i < |es| then es[i] else more[i - |es|] {}
    if NoRun(es + more, id) {
      forall i | 0 <= i < |es| && es[i].Ran? ensures es[i].opId != id { assert (es + more)[i] == es[i]; }
    }
    forall ok | RanOnce(es, id, ok) ensures RanOnce(es + more, id, ok) {
      var i :| 0 <= i < |es| && es[i] == Ran(id, ok);
      assert (es + more)[i] == Ran(id, ok);
    }
  }

  lemma {:induction false} ToldStays(r: Registry, g: Graph, v: Version, before: View, p: Pass, q: Pass,
                                     more: seq<Effect>, id: string)
    requires Told(r, g, v, before, p, id) && q.effects == p.effects + more && NoRun(more, id)
    requires id in q.results && q.results[id] == p.results[id]
    ensures Told(r, g, v, before, q, id)
  {
    hide Doomed, Execute, NoRun, RanOnce;
    RunsElsewhere(p.effects, more, id);
  }

  /** One more result, of an op that has none yet or the one it had. */
  lemma {:induction false} ToldMore(r: Registry, g: Graph, v: Version, before: View, p: Pass, q: Pass,
                                    more: seq<Effect>, res: OpResult)
    requires AllTold(r, g, v, before, p)
    requires q.effects == p.effects + more && q.results == p.results[res.opId := res]
    requires forall i :: 0 <= i < |more| && more[i].Ran? ==> more[i].opId == res.opId
    requires Told(r, g, v, before, q, res.opId)
    ensures AllTold(r, g, v, before, q)
  {
    hide Told;
    forall id | id in q.results ensures Told(r, g, v, before, q, id) {
      if id != res.opId { ToldStays(r, g, v, before, p, q, more, id); }
    }
    forall i | 0 <= i < |q.effects| && q.effects[i].Ran? ensures q.effects[i].opId in q.results {
      assert q.effects[i] == if i < |p.effects| then p.effects[i] else more[i - |p.effects|];
    }
  }

  lemma {:induction false} OpenTold(r: Registry, g: Graph, v: Version, before: View, ids: seq<string>)
    requires forall id :: id in ids ==> id in g && Doomed(g, id)
    ensures AllTold(r, g, v, before, Open(v, ids))
  {
    hide Doomed, Execute;
    if |ids| != 0 {
      var front, id := ids[..|ids| - 1], ids[|ids| - 1];
      OpenTold(r, g, v, before, front);
      OpenRunsNothing(v, ids);
      ToldMore(r, g, v, before, Open(v, front), Open(v, ids), [Recorded(Unorderable(v, id))], Unorderable(v, id));
    }
  }

  lemma {:induction false} OpenRunsNothing(v: Version, ids: seq<string>)
    ensures forall i :: 0 <= i < |Open(v, ids).effects| ==> !Open(v, ids).effects[i].Ran?
  {
    if |ids| != 0 { OpenRunsNothing(v, ids[..|ids| - 1]); }
  }

  lemma {:induction false} StepTold(r: Registry, g: Graph, v: Version, before: View, p: Pass, done: set<string>, op: Op)
    requires Good(g, v, before, p, done) && AllTold(r, g, v, before, p)
    requires op.id in g && g[op.id] == op && !Doomed(g, op.id) && op.id !in done
    ensures AllTold(r, g, v, before, Step(r, v, before, p, op))
  {
    hide Doomed, Execute, SkipReason, Justified, LawfulRun, AllRecorded, Closed, Keyed, Replay;
    var now := Replay(before, p.effects);
    var q := Step(r, v, before, p, op);
    assert NoRun(p.effects, op.id);
    AppliedBefore(g, v, before, now, p.results, done, op.id);
    if AppliedIn(now, v, op.id) {
      assert q.effects == p.effects + [];
      StoredUnderItsName(now, v, op.id) by { assert Keyed(now.rows); }
      ToldMore(r, g, v, before, p, q, [], now.rows[Slot(v, op.id)]);
    } else {
      match SkipReason(op.dependsOn, p.results, p.failed)
      case Some(why) =>
        var res := OpResult(v, op.id, Skipped, why);
        RunsElsewhere(p.effects, [Recorded(res)], op.id);
        ToldMore(r, g, v, before, p, q, [Recorded(res)], res);
      case None =>
        var res := Execute(r, v, op);
        var more := Call(r, v, op) + [Recorded(res)];
        assert q.effects == p.effects + more;
        CallRuns(p.effects, Call(r, v, op), res);
        ToldMore(r, g, v, before, p, q, more, res);
    }
  }

  lemma {:induction false} StoredUnderItsName(view: View, v: Version, id: string)
    requires Keyed(view.rows) && Slot(v, id) in view.rows
    ensures view.rows[Slot(v, id)].opId == id
  {
    assert SlotOf(view.rows[Slot(v, id)]) == Slot(v, id);
  }

  lemma {:induction false} AppliedBefore(g: Graph, v: Version, before: View, now: View, results: map<string, OpResult>,
                                         done: set<string>, id: string)
    requires Agrees(g, v, before, now, results, done) && id !in done
    ensures AppliedIn(now, v, id) <==> AppliedIn(before, v, id)
    ensures AppliedIn(now, v, id) ==> now.rows[Slot(v, id)] == before.rows[Slot(v, id)]
    ensures results.Keys == done
  {
    hide Justified, Doomed;
  }

  /** A first call, if there is one, is the only one. */
  lemma {:induction false} CallRuns(es: seq<Effect>, call: seq<Effect>, res: OpResult)
    requires NoRun(es, res.opId) && (call == [] || call == [Ran(res.opId, res.state.Applied?)])
    ensures var all := es + (call + [Recorded(res)]);
            if call == [] then NoRun(all, res.opId) else RanOnce(all, res.opId, res.state.Applied?)
  {
    var all := es + (call + [Recorded(res)]);
    forall i | 0 <= i < |es| ensures all[i] == es[i] {}
    if call != [] { assert all[|es|] == call[0] && all[|es| + 1] == Recorded(res); }
  }

  lemma {:induction false} SweepTold(r: Registry, g: Graph, v: Version, before: View, p: Pass, done: set<string>,
                                     ops: seq<Op>)
    requires Good(g, v, before, p, done) && AllTold(r, g, v, before, p) && Sequenced(g, ops)
    requires forall op :: op in ops ==> !Doomed(g, op.id) && op.id !in done
    ensures AllTold(r, g, v, before, Sweep(r, v, before, p, ops))
  {
    hide Doomed, Good, AllTold, Sequenced, Ids, Step;
    if |ops| != 0 {
      var front, op := ops[..|ops| - 1], ops[|ops| - 1];
      SequencedFront(g, ops);
      SweepTold(r, g, v, before, p, done, front);
      SweepGood(r, g, v, before, p, done, front);
      StepTold(r, g, v, before, Sweep(r, v, before, p, front), done + Ids(front), op);
    }
  }

  lemma {:induction false} PassTold(ops: seq<Op>, v: Version, before: View, a: Attempt)
    requires At(ops, a) && Closed(ById(ops), v, before) && Keyed(before.rows)
    ensures AllTold(a.r, ById(ops), v, before, FullPass(a, v, before))
    ensures FullPass(a, v, before).results.Keys == ById(ops).Keys
    ensures forall id :: id in ById(ops) ==> Justified(ById(ops), v, FullPass(a, v, before).results, id)
  {
    hide Doomed, Good, AllTold, Ids, Sequenced, DoomedIds;
    var g := ById(ops);
    DoomedSplit(ops, a.ordered, a.unresolved);
    OpenGood(g, v, before, a.unresolved);
    OpenTold(a.r, g, v, before, a.unresolved);
    SweepTold(a.r, g, v, before, Open(v, a.unresolved), Range(a.unresolved), a.ordered);
    PassGood(ops, v, before, a);
    GoodSays(g, v, before, FullPass(a, v, before));
  }

  lemma {:induction false} GoodSays(g: Graph, v: Version, before: View, p: Pass)
    requires Good(g, v, before, p, g.Keys)
    ensures p.results.Keys == g.Keys && forall id :: id in g ==> Justified(g, v, p.results, id)
  {
    hide Doomed, Justified;
  }

  // ---- what a complete pass says ----

  /** An op that this pass runs. Its result is applied exactly if its kind has a handler that
      neither timed out nor returned an error, and otherwise failed, with the error's own
      text, or one that names the budget, or the kind. */
  lemma {:induction false} RunSays(ops: seq<Op>, v: Version, before: View, a: Attempt, id: string)
    requires At(ops, a) && Closed(ById(ops), v, before) && Keyed(before.rows)
    requires id in ById(ops) && !Doomed(ById(ops), id)
    requires Slot(v, id) in before.rows ==> !before.rows[Slot(v, id)].state.Applied?
    requires var results := FullPass(a, v, before).results;
             forall dep :: dep in ById(ops)[id].dependsOn ==> dep in results && results[dep].state.Applied?
    ensures id in FullPass(a, v, before).results
    ensures var res, op := FullPass(a, v, before).results[id], ById(ops)[id];
            && res.version == v && res.opId == id
            && (res.state.Applied? <==>
                  op.kind in a.r.handlers && !a.r.handlers[op.kind](op).timedOut && a.r.handlers[op.kind](op).err.None?)
            && (res.state.Applied? ==> res.err == "")
            && (!res.state.Applied? ==> res.state.Failed?)
    ensures var res, op := FullPass(a, v, before).results[id], ById(ops)[id];
            && (op.kind !in a.r.handlers ==> res.err == "unknown op kind " + a.r.quote(op.kind))
            && (op.kind in a.r.handlers ==>
                  var run := a.r.handlers[op.kind](op);
                  var budget := if op.kind in a.r.timeouts && a.r.timeouts[op.kind] > 0 then a.r.timeouts[op.kind]
                                else 900_000_000_000;
                  && (run.timedOut && run.err.None? ==> res.err == "op timed out after " + a.r.showDuration(budget))
                  && (run.timedOut && run.err.Some? ==>
                        res.err == "op timed out after " + a.r.showDuration(budget) + (": " + run.err.value))
                  && (!run.timedOut && run.err.Some? ==> res.err == run.err.value))
  {
    hide Doomed, TopoSpec, Closed, Keyed, FullPass, NoRun, RanOnce, SkipReason;
    var g, p := ById(ops), FullPass(a, v, before);
    PassTold(ops, v, before, a);
    NoReason(g[id].dependsOn, p.results);
    assert Told(a.r, g, v, before, p, id) && Justified(g, v, p.results, id);
    assert !p.results[id].state.Skipped?;
    assert p.results[id] == Execute(a.r, v, g[id]);
    if a.r.handlers != map[] && g[id].kind in a.r.handlers {
      var run := a.r.handlers[g[id].kind](g[id]);
      if run.timedOut && run.err.None? {
        var head := "op timed out after " + a.r.showDuration(TimeoutFor(a.r, g[id].kind));
        assert head + "" == head;
      }
    }
  }

  /** An op is given to its handler, and then once, exactly if it can be ordered, was not
      applied before, all its dependencies are applied and its kind has a handler; the call
      succeeded exactly if it neither timed out nor returned an error. */
  lemma {:induction false} RanIff(ops: seq<Op>, v: Version, before: View, a: Attempt, id: string, ok: bool)
    requires At(ops, a) && Closed(ById(ops), v, before) && Keyed(before.rows)
    ensures var p, g := FullPass(a, v, before), ById(ops);
            (exists i :: 0 <= i < |p.effects| && p.effects[i] == Ran(id, ok)) <==>
              && id in g && !Doomed(g, id)
              && !(Slot(v, id) in before.rows && before.rows[Slot(v, id)].state.Applied?)
              && (forall dep :: dep in g[id].dependsOn ==> dep in p.results && p.results[dep].state.Applied?)
              && g[id].kind in a.r.handlers
              && var run := a.r.handlers[g[id].kind](g[id]); ok == (!run.timedOut && run.err.None?)
    ensures var es := FullPass(a, v, before).effects;
            forall i, j :: 0 <= i < j < |es| && es[i].Ran? && es[j].Ran? ==> es[i].opId != id || es[j].opId != id
  {
    hide Doomed, TopoSpec, Closed, Keyed, FullPass, SkipReason;
    var g, p := ById(ops), FullPass(a, v, before);
    PassTold(ops, v, before, a);
    if id in g {
      assert Told(a.r, g, v, before, p, id) && Justified(g, v, p.results, id);
      DepsHaveResults(ops, v, before, a, id);
      if !Doomed(g, id) { NoReason(g[id].dependsOn, p.results); }
    }
  }

  lemma {:induction false} DepsHaveResults(ops: seq<Op>, v: Version, before: View, a: Attempt, id: string)
    requires At(ops, a) && Closed(ById(ops), v, before) && Keyed(before.rows) && id in ById(ops)
    ensures !Doomed(ById(ops), id) ==>
            forall dep :: dep in ById(ops)[id].dependsOn ==> dep in FullPass(a, v, before).results
  {
    hide Doomed, TopoSpec, Closed, Keyed, FullPass;
    PassGood(ops, v, before, a);
  }

  /** An op with a dependency that is not applied is skipped, and its text names the first
      of those and quotes its error. */
  lemma {:induction false} SkipSays(ops: seq<Op>, v: Version, before: View, a: Attempt, id: string, k: nat)
    requires At(ops, a) && Closed(ById(ops), v, before) && Keyed(before.rows)
    requires id in ById(ops) && !Doomed(ById(ops), id) && k < |ById(ops)[id].dependsOn|
    requires var results, deps := FullPass(a, v, before).results, ById(ops)[id].dependsOn;
             && (forall j :: 0 <= j < k ==> deps[j] in results && results[deps[j]].state.Applied?)
             && (deps[k] in results ==> !results[deps[k]].state.Applied?)
    ensures var results, dep := FullPass(a, v, before).results, ById(ops)[id].dependsOn[k];
            && dep in results && id in results
            && results[id] == OpResult(v, id, Skipped, "prerequisite " + dep + " failed" +
                                                       if results[dep].err == "" then "" else ": " + results[dep].err)
  {
    hide Doomed, TopoSpec, Closed, Keyed, FullPass, SkipReason, Told;
    var g, p := ById(ops), FullPass(a, v, before);
    PassTold(ops, v, before, a);
    DepsHaveResults(ops, v, before, a, id);
    assert g[id].dependsOn[k] in g[id].dependsOn;
    FirstBlamed(g[id].dependsOn, p.results, k);
    assert Justified(g, v, p.results, id);
  }

  lemma {:induction false} FirstBlamed(deps: seq<string>, results: map<string, OpResult>, k: nat)
    requires k < |deps| && deps[k] in results && !results[deps[k]].state.Applied?
    requires forall j :: 0 <= j < k ==> deps[j] in results && results[deps[j]].state.Applied?
    ensures SkipReason(deps, results, Broken(results)) ==
              Some("prerequisite " + deps[k] + " failed" +
                   if results[deps[k]].err == "" then "" else ": " + results[deps[k]].err)
  {
    if k > 0 {
      FirstBlamed(deps[1..], results, k - 1);
    } else {
      var head, err := "prerequisite " + deps[0] + " failed", results[deps[0]].err;
      assert head + "" == head;
      assert "prerequisite " + deps[0] + " failed: " + err == head + (": " + err);
    }
  }

  /** The other two: an op that was applied keeps its result, and one that cannot be ordered fails. */
  lemma {:induction false} KeptOrUnorderable(ops: seq<Op>, v: Version, before: View, a: Attempt, id: string)
    requires At(ops, a) && Closed(ById(ops), v, before) && Keyed(before.rows) && id in ById(ops)
    ensures id in FullPass(a, v, before).results
    ensures Doomed(ById(ops), id) ==>
            FullPass(a, v, before).results[id] == OpResult(v, id, Failed, "unorderable (cycle or missing dependency)")
    ensures Slot(v, id) in before.rows && before.rows[Slot(v, id)].state.Applied? ==>
            FullPass(a, v, before).results[id] == before.rows[Slot(v, id)]
  {
    hide TopoSpec, Keyed, FullPass, SkipReason, Doomed, NoRun, RanOnce;
    var g, p := ById(ops), FullPass(a, v, before);
    PassTold(ops, v, before, a);
    assert Told(a.r, g, v, before, p, id) && Justified(g, v, p.results, id);
    if AppliedIn(before, v, id) {
      assert DepsApplied(g, v, before, id);
      AppliedAgain(ops, v, before, a, id);
    }
  }

  /** What was applied before a pass is not skipped by it. */
  lemma {:induction false} AppliedAgain(ops: seq<Op>, v: Version, before: View, a: Attempt, id: string)
    requires At(ops, a) && Closed(ById(ops), v, before) && Keyed(before.rows) && AppliedIn(before, v, id)
    ensures id in FullPass(a, v, before).results && FullPass(a, v, before).results[id].state.Applied?
  {
    hide TopoSpec, Keyed, FullPass, Doomed;
    var p := FullPass(a, v, before);
    PassGood(ops, v, before, a);
    assert DepsApplied(ById(ops), v, before, id);
    LawfulRunKeeps(ById(ops), v, before, p.effects);
  }
}
