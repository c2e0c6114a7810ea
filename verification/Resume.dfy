/** What `Registry.Apply` keeps over any number of attempts at one document, each cut
    after any effect: agent/internal/apply/apply.go and its journal. */
module Resume {
  import opened Wrappers
  import opened Dsd
  import opened Journal
  import opened Apply

  // ---- the laws one effect obeys ----

  ghost predicate DepsApplied(g: Graph, v: Version, view: View, id: string) {
    id in g && forall dep :: dep in g[id].dependsOn ==> AppliedIn(view, v, dep)
  }

  /** Only an op not yet applied, with every dependency applied, is run; only a result
      of such an op is recorded as applied; nothing is recorded over an applied op; and
      the watermark moves when every op of the document has a record. */
  ghost predicate Lawful(g: Graph, v: Version, view: View, e: Effect) {
    match e
    case Ran(id, _) => !AppliedIn(view, v, id) && DepsApplied(g, v, view, id)
    case Recorded(res) =>
      && res.version == v && res.opId in g && !AppliedIn(view, v, res.opId)
      && (res.state.Applied? ==> !Doomed(g, res.opId) && DepsApplied(g, v, view, res.opId))
    case Advanced(w) => w == v && forall id :: id in g ==> Slot(v, id) in view.rows
  }

  ghost predicate LawfulRun(g: Graph, v: Version, before: View, es: seq<Effect>) {
    |es| == 0 || (LawfulRun(g, v, before, es[..|es| - 1]) && Lawful(g, v, Replay(before, es[..|es| - 1]), es[|es| - 1]))
  }

  /** Applied ops are orderable and have all their dependencies applied. */
  ghost predicate Closed(g: Graph, v: Version, view: View) {
    forall id :: AppliedIn(view, v, id) ==> !Doomed(g, id) && DepsApplied(g, v, view, id)
  }

  /** Each handler call is followed by the record of how it ended. */
  ghost predicate Paired(es: seq<Effect>) {
    forall i: nat :: i + 1 < |es| && es[i].Ran? ==> Matches(es[i], es[i + 1])
  }

  ghost predicate Matches(ran: Effect, next: Effect)
    requires ran.Ran?
  {
    next.Recorded? && next.res.opId == ran.opId && (next.res.state.Applied? <==> ran.ok)
  }

  ghost predicate AllRecorded(es: seq<Effect>) {
    Paired(es) && (|es| > 0 ==> !es[|es| - 1].Ran?)
  }

  lemma {:induction false} LawfulKeeps(g: Graph, v: Version, view: View, e: Effect)
    requires Closed(g, v, view) && Lawful(g, v, view, e)
    ensures Closed(g, v, Do(view, e))
    ensures forall id :: AppliedIn(view, v, id) ==> AppliedIn(Do(view, e), v, id)
    ensures Keyed(view.rows) ==> Keyed(Do(view, e).rows)
  {
    hide Doomed;
    forall id | AppliedIn(Do(view, e), v, id) ensures !Doomed(g, id) && DepsApplied(g, v, Do(view, e), id) {
      if AppliedIn(view, v, id) { assert DepsApplied(g, v, view, id); }
    }
  }

  lemma {:induction false} LawfulRunKeeps(g: Graph, v: Version, before: View, es: seq<Effect>)
    requires Closed(g, v, before) && LawfulRun(g, v, before, es)
    ensures Closed(g, v, Replay(before, es))
    ensures forall id :: AppliedIn(before, v, id) ==> AppliedIn(Replay(before, es), v, id)
    ensures Keyed(before.rows) ==> Keyed(Replay(before, es).rows)
  {
    if |es| != 0 {
      LawfulRunKeeps(g, v, before, es[..|es| - 1]);
      LawfulKeeps(g, v, Replay(before, es[..|es| - 1]), es[|es| - 1]);
    }
  }

  lemma {:induction false} LawfulSnoc(g: Graph, v: Version, before: View, es: seq<Effect>, e: Effect)
    ensures LawfulRun(g, v, before, es + [e]) <==> LawfulRun(g, v, before, es) && Lawful(g, v, Replay(before, es), e)
  {
    assert (es + [e])[..|es|] == es;
  }

  lemma {:induction false} LawfulPrefix(g: Graph, v: Version, before: View, es: seq<Effect>, k: nat)
    requires LawfulRun(g, v, before, es) && k <= |es|
    ensures LawfulRun(g, v, before, es[..k])
    ensures k < |es| ==> Lawful(g, v, Replay(before, es[..k]), es[k])
  {
    if k == |es| {
      assert es[..k] == es;
    } else if k < |es| - 1 {
      assert es[..|es| - 1][..k] == es[..k];
      LawfulPrefix(g, v, before, es[..|es| - 1], k);
    }
  }

  lemma {:induction false} LawfulAppend(g: Graph, v: Version, before: View, a: seq<Effect>, b: seq<Effect>)
    requires LawfulRun(g, v, before, a) && LawfulRun(g, v, Replay(before, a), b)
    ensures LawfulRun(g, v, before, a + b)
  {
    if |b| == 0 {
      assert a + b == a;
    } else {
      var c, e := b[..|b| - 1], b[|b| - 1];
      LawfulAppend(g, v, before, a, c);
      ReplayAppend(before, a, c);
      assert a + b == (a + c) + [e];
      LawfulSnoc(g, v, before, a + c, e);
    }
  }

  lemma {:induction false} AllRecordedSnoc(es: seq<Effect>, call: seq<Effect>, res: OpResult)
    requires AllRecorded(es)
    requires call == [] || call == [Ran(res.opId, res.state.Applied?)]
    ensures AllRecorded(es + call + [Recorded(res)])
  {
  }

  // ---- what the results say ----

  ghost function Broken(results: map<string, OpResult>): set<string> {
    set id | id in results && !results[id].state.Applied?
  }

  /** The result of `id` is the one the document and its dependencies' results call for. */
  ghost predicate Justified(g: Graph, v: Version, results: map<string, OpResult>, id: string) {
    && id in g && id in results && results[id].version == v && results[id].opId == id
    && if Doomed(g, id) then results[id] == Unorderable(v, id) else
       match SkipReason(g[id].dependsOn, results, Broken(results))
       case Some(why) => results[id].state.Skipped? && results[id].err == why
       case None => !results[id].state.Skipped?
  }

  lemma {:induction false} SkipReasonLocal(deps: seq<string>, r: map<string, OpResult>, s: map<string, OpResult>)
    requires forall dep :: dep in deps ==> dep in r && dep in s && r[dep] == s[dep]
    ensures SkipReason(deps, r, Broken(r)) == SkipReason(deps, s, Broken(s))
  {
    if |deps| != 0 {
      assert deps[0] in deps;
      SkipReasonLocal(deps[1..], r, s);
    }
  }

  lemma {:induction false} NoReason(deps: seq<string>, results: map<string, OpResult>)
    requires forall dep :: dep in deps ==> dep in results
    ensures SkipReason(deps, results, Broken(results)).None? <==>
            forall dep :: dep in deps ==> results[dep].state.Applied?
  {
    if |deps| != 0 {
      NoReason(deps[1..], results);
      assert deps == [deps[0]] + deps[1..];
    }
  }

  // ---- the invariant of the loop ----

  /** After the ops in `done`, the loop's maps agree with each other, with the
      journal, and with the document. */
  ghost predicate Agrees(g: Graph, v: Version, before: View, now: View, results: map<string, OpResult>,
                         done: set<string>) {
    && results.Keys == done
    && (forall id :: id in done ==> Justified(g, v, results, id))
    && (forall id :: id in done && !Doomed(g, id) ==> forall dep :: dep in g[id].dependsOn ==> dep in done)
    && (forall id :: id in done ==> Slot(v, id) in now.rows && now.rows[Slot(v, id)] == results[id])
    && (forall s: Slot :: s.version != v || s.opId !in done ==>
          (s in now.rows <==> s in before.rows) && (s in now.rows ==> now.rows[s] == before.rows[s]))
    && now.applied == before.applied && now.reported == before.reported
  }

  ghost predicate Good(g: Graph, v: Version, before: View, p: Pass, done: set<string>) {
    var now := Replay(before, p.effects);
    && Agrees(g, v, before, now, p.results, done)
    && p.failed == Broken(p.results)
    && LawfulRun(g, v, before, p.effects)
    && AllRecorded(p.effects)
    && Closed(g, v, now) && Keyed(now.rows)
  }

  lemma {:induction false} AgreesAdds(g: Graph, v: Version, before: View, now: View, now': View,
                   results: map<string, OpResult>, done: set<string>, res: OpResult)
    requires Agrees(g, v, before, now, results, done)
    requires res.opId !in done || res == results[res.opId]
    requires Justified(g, v, results[res.opId := res], res.opId)
    requires !Doomed(g, res.opId) ==>
             res.opId !in g[res.opId].dependsOn && forall dep :: dep in g[res.opId].dependsOn ==> dep in done
    requires now' == now.(rows := now.rows[Slot(v, res.opId) := res])
    ensures Agrees(g, v, before, now', results[res.opId := res], done + {res.opId})
  {
    hide Doomed, SkipReason, Justified;
    var results' := results[res.opId := res];
    forall id | id in done ensures Justified(g, v, results', id) {
      if id != res.opId { JustifiedStays(g, v, results, done, res, id); }
    }
  }

  lemma {:induction false} JustifiedStays(g: Graph, v: Version, results: map<string, OpResult>, done: set<string>,
                                          res: OpResult, id: string)
    requires Justified(g, v, results, id) && results.Keys == done && id != res.opId
    requires res.opId !in done || res == results[res.opId]
    requires !Doomed(g, id) ==> forall dep :: dep in g[id].dependsOn ==> dep in done
    ensures Justified(g, v, results[res.opId := res], id)
  {
    hide Doomed, SkipReason;
    if !Doomed(g, id) { SkipReasonLocal(g[id].dependsOn, results, results[res.opId := res]); }
  }

  lemma {:induction false} RecordLawfully(g: Graph, v: Version, before: View, es: seq<Effect>, call: seq<Effect>,
                                          res: OpResult)
    requires LawfulRun(g, v, before, es) && AllRecorded(es)
    requires Closed(g, v, Replay(before, es)) && Keyed(Replay(before, es).rows)
    requires call == [] || call == [Ran(res.opId, res.state.Applied?)]
    requires res.version == v && res.opId in g && !AppliedIn(Replay(before, es), v, res.opId)
    requires call != [] || res.state.Applied? ==> DepsApplied(g, v, Replay(before, es), res.opId)
    requires res.state.Applied? ==> !Doomed(g, res.opId)
    ensures var es' := es + call + [Recorded(res)];
            && LawfulRun(g, v, before, es') && AllRecorded(es')
            && Replay(before, es') == Do(Replay(before, es), Recorded(res))
            && Closed(g, v, Replay(before, es')) && Keyed(Replay(before, es').rows)
  {
    hide Doomed, Closed, Keyed, AllRecorded, DepsApplied, LawfulRun, Replay, AppliedIn;
    var now := Replay(before, es);
    if call == [] {
      assert es + call == es;
    } else {
      ReplayOne(before, es, call[0]);
      LawfulSnoc(g, v, before, es, call[0]);
    }
    ReplayOne(before, es + call, Recorded(res));
    LawfulSnoc(g, v, before, es + call, Recorded(res));
    LawfulKeeps(g, v, now, Recorded(res));
    AllRecordedSnoc(es, call, res);
  }

  lemma {:induction false} NoteKeeps(g: Graph, v: Version, before: View, p: Pass, done: set<string>,
                                     call: seq<Effect>, res: OpResult)
    requires Good(g, v, before, p, done)
    requires call == [] || call == [Ran(res.opId, res.state.Applied?)]
    requires res.opId !in done || (res == p.results[res.opId] && !res.state.Applied?)
    requires Justified(g, v, p.results[res.opId := res], res.opId)
    requires !Doomed(g, res.opId) ==>
             res.opId !in g[res.opId].dependsOn && forall dep :: dep in g[res.opId].dependsOn ==> dep in done
    requires !AppliedIn(Replay(before, p.effects), v, res.opId)
    requires call != [] || res.state.Applied? ==> DepsApplied(g, v, Replay(before, p.effects), res.opId)
    requires res.state.Applied? ==> !Doomed(g, res.opId)
    ensures Good(g, v, before, Note(p.(effects := p.effects + call), res), done + {res.opId})
  {
    hide Doomed, SkipReason, Closed, Agrees, Justified, Keyed, LawfulRun, AllRecorded, Replay, AppliedIn, DepsApplied;
    var now := Replay(before, p.effects);
    JustifiedKey(g, v, p.results[res.opId := res], res.opId);
    RecordLawfully(g, v, before, p.effects, call, res);
    AgreesAdds(g, v, before, now, Do(now, Recorded(res)), p.results, done, res);
    AgreesKeys(g, v, before, now, p.results, done);
    assert Broken(p.results[res.opId := res]) == if res.state.Applied? then p.failed else p.failed + {res.opId};
  }

  lemma {:induction false} JustifiedKey(g: Graph, v: Version, results: map<string, OpResult>, id: string)
    requires Justified(g, v, results, id)
    ensures id in g && results[id].version == v && results[id].opId == id
  {
  }

  lemma {:induction false} AgreesKeys(g: Graph, v: Version, before: View, now: View, results: map<string, OpResult>,
                                      done: set<string>)
    requires Agrees(g, v, before, now, results, done)
    ensures results.Keys == done
    ensures forall id :: id in done ==> Slot(v, id) in now.rows && now.rows[Slot(v, id)] == results[id]
  {
  }

  function Range(ids: seq<string>): set<string> {
    set id | id in ids
  }

  lemma {:induction false} OpenGood(g: Graph, v: Version, before: View, ids: seq<string>)
    requires Closed(g, v, before) && Keyed(before.rows)
    requires forall id :: id in ids ==> id in g && Doomed(g, id)
    ensures Good(g, v, before, Open(v, ids), Range(ids))
    ensures forall id :: id in ids ==> Open(v, ids).results[id] == Unorderable(v, id)
  {
    hide Doomed, SkipReason, Good;
    if |ids| == 0 {
      assert ids == [] && Range(ids) == {};
      OpenNoneGood(g, v, before);
    } else {
      var front, id := ids[..|ids| - 1], ids[|ids| - 1];
      OpenGood(g, v, before, front);
      OpenOneGood(g, v, before, Open(v, front), Range(front), id);
      assert ids == front + [id];
      assert Range(ids) == Range(front) + {id};
    }
  }

  lemma {:induction false} OpenNoneGood(g: Graph, v: Version, before: View)
    requires Closed(g, v, before) && Keyed(before.rows)
    ensures Good(g, v, before, Open(v, []), {})
  {
  }

  lemma {:induction false} OpenOneGood(g: Graph, v: Version, before: View, p: Pass, done: set<string>, id: string)
    requires Good(g, v, before, p, done) && id in g && Doomed(g, id)
    requires id in done ==> p.results[id] == Unorderable(v, id)
    ensures Good(g, v, before, Note(p, Unorderable(v, id)), done + {id})
  {
    hide Doomed, SkipReason, Agrees;
    var now := Replay(before, p.effects);
    AgreesKeys(g, v, before, now, p.results, done);
    assert p.(effects := p.effects + []) == p;
    NoteKeeps(g, v, before, p, done, [], Unorderable(v, id));
  }

  lemma {:induction false} StepGood(r: Registry, g: Graph, v: Version, before: View, p: Pass, done: set<string>, op: Op)
    requires Good(g, v, before, p, done)
    requires op.id in g && g[op.id] == op && !Doomed(g, op.id) && op.id !in done
    requires forall dep :: dep in op.dependsOn ==> dep in done
    ensures Good(g, v, before, Step(r, v, before, p, op), done + {op.id})
  {
    hide Doomed, Agrees, Closed, Keyed, LawfulRun, AllRecorded;
    var now := Replay(before, p.effects);
    AgreesKeys(g, v, before, now, p.results, done);
    var why := SkipReason(op.dependsOn, p.results, p.failed);
    NoReason(op.dependsOn, p.results);
    if AppliedIn(now, v, op.id) {
      ResumeGood(g, v, before, p, done, op);
    } else if why.Some? {
      var res := OpResult(v, op.id, Skipped, why.value);
      SkipReasonLocal(op.dependsOn, p.results, p.results[op.id := res]);
      assert p.(effects := p.effects + []) == p;
      NoteKeeps(g, v, before, p, done, [], res);
    } else {
      var res := Execute(r, v, op);
      SkipReasonLocal(op.dependsOn, p.results, p.results[op.id := res]);
      assert DepsApplied(g, v, now, op.id);
      NoteKeeps(g, v, before, p, done, Call(r, v, op), res);
    }
  }

  lemma {:induction false} ResumeGood(g: Graph, v: Version, before: View, p: Pass, done: set<string>, op: Op)
    requires Good(g, v, before, p, done)
    requires op.id in g && g[op.id] == op && !Doomed(g, op.id) && op.id !in done
    requires forall dep :: dep in op.dependsOn ==> dep in done
    requires AppliedIn(Replay(before, p.effects), v, op.id)
    ensures var now := Replay(before, p.effects);
            Good(g, v, before, p.(results := p.results[op.id := now.rows[Slot(v, op.id)]]), done + {op.id})
  {
    var now := Replay(before, p.effects);
    var res := now.rows[Slot(v, op.id)];
    var results' := p.results[op.id := res];
    assert SlotOf(res) == Slot(v, op.id);
    NoReason(op.dependsOn, p.results);
    assert DepsApplied(g, v, now, op.id);
    SkipReasonLocal(op.dependsOn, p.results, results');
    assert now == now.(rows := now.rows[Slot(v, op.id) := res]);
    AgreesAdds(g, v, before, now, now, p.results, done, res);
    assert Broken(results') == Broken(p.results);
  }

  lemma {:induction false} SweepGood(r: Registry, g: Graph, v: Version, before: View, p: Pass, done: set<string>,
                                     ops: seq<Op>)
    requires Good(g, v, before, p, done) && Sequenced(g, ops)
    requires forall op :: op in ops ==> !Doomed(g, op.id) && op.id !in done
    ensures Good(g, v, before, Sweep(r, v, before, p, ops), done + Ids(ops))
  {
    hide Doomed, Good, Sequenced, Ids;
    if |ops| == 0 {
      assert Ids(ops) == {} by { NoIds(); }
      assert done + Ids(ops) == done;
    } else {
      var front, op := ops[..|ops| - 1], ops[|ops| - 1];
      SequencedFront(g, ops);
      SweepGood(r, g, v, before, p, done, front);
      StepGood(r, g, v, before, Sweep(r, v, before, p, front), done + Ids(front), op);
      assert done + Ids(front) + {op.id} == done + Ids(ops);
    }
  }

  lemma {:induction false} NoIds()
    ensures Ids([]) == {}
  {
  }

  lemma {:induction false} DoomedSplit(ops: seq<Op>, ordered: seq<Op>, unresolved: seq<string>)
    requires TopoSpec(ops, ordered, unresolved)
    ensures forall id :: id in unresolved ==> id in ById(ops) && Doomed(ById(ops), id)
    ensures forall op :: op in ordered ==> !Doomed(ById(ops), op.id) && op.id !in Range(unresolved)
    ensures Range(unresolved) + Ids(ordered) == ById(ops).Keys
  {
    hide Doomed;
    var g := ById(ops);
    forall id ensures id in unresolved <==> id in g && Doomed(g, id) {
      DoomedIdsAre(g, ops, id);
      if id in g { assert g[id] in ops; }
    }
    forall op | op in ordered ensures !Doomed(g, op.id) {
      assert op.id in Ids(ordered);
    }
  }

  /** A pass over the whole document ends with every op accounted for. */
  lemma {:induction false} PassGood(ops: seq<Op>, v: Version, before: View, a: Attempt)
    requires TopoSpec(ops, a.ordered, a.unresolved) && Closed(ById(ops), v, before) && Keyed(before.rows)
    ensures Good(ById(ops), v, before, FullPass(a, v, before), ById(ops).Keys)
    ensures LawfulRun(ById(ops), v, before, Trace(a, v, before))
  {
    hide Doomed, Good, Lawful, LawfulRun, DoomedIds, Ids, Sequenced;
    var g := ById(ops);
    DoomedSplit(ops, a.ordered, a.unresolved);
    OpenGood(g, v, before, a.unresolved);
    SweepGood(a.r, g, v, before, Open(v, a.unresolved), Range(a.unresolved), a.ordered);
    PassRecordsAll(g, v, before, FullPass(a, v, before));
    LawfulSnoc(g, v, before, FullPass(a, v, before).effects, Advanced(v));
  }

  lemma {:induction false} PassRecordsAll(g: Graph, v: Version, before: View, p: Pass)
    requires Good(g, v, before, p, g.Keys)
    ensures LawfulRun(g, v, before, p.effects) && Lawful(g, v, Replay(before, p.effects), Advanced(v))
  {
  }
}
