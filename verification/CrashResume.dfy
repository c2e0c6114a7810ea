/** Theorems about whole histories of `Registry.Apply`: attempts at one document, each
    cut after any effect, with handlers that may behave differently every time. */
module CrashResume {
  import opened Wrappers
  import opened Dsd
  import opened Journal
  import opened Apply
  import opened Resume

  /** An attempt that got through its first `at` effects, or all of them. */
  datatype Cut = Cut(a: Attempt, at: nat)

  function Executed(c: Cut, v: Version, before: View): seq<Effect> {
    var t := Trace(c.a, v, before);
    if c.at <= |t| then t[..c.at] else t
  }

  /** Everything that happened: each attempt starts from the journal the last one left. */
  function History(v: Version, before: View, cuts: seq<Cut>): seq<Effect> {
    if |cuts| == 0 then [] else
      var h := History(v, before, cuts[..|cuts| - 1]);
      h + Executed(cuts[|cuts| - 1], v, Replay(before, h))
  }

  ghost predicate At(ops: seq<Op>, a: Attempt) {
    TopoSpec(ops, a.ordered, a.unresolved)
  }

  /** A history of attempts at the document `ops`, from a journal that is keyed and
      dependency-closed at this version (a journal without the version is). */
  ghost predicate Attempts(ops: seq<Op>, v: Version, before: View, cuts: seq<Cut>) {
    && Closed(ById(ops), v, before) && Keyed(before.rows)
    && forall i :: 0 <= i < |cuts| ==> At(ops, cuts[i].a)
  }

  lemma {:induction false} HistoryIsLawful(ops: seq<Op>, v: Version, before: View, cuts: seq<Cut>)
    requires Attempts(ops, v, before, cuts)
    ensures LawfulRun(ById(ops), v, before, History(v, before, cuts))
    ensures Closed(ById(ops), v, Replay(before, History(v, before, cuts)))
    ensures Keyed(Replay(before, History(v, before, cuts)).rows)
  {
    hide Closed, Keyed, Lawful, TopoSpec;
    var g := ById(ops);
    if |cuts| != 0 {
      var front, c := cuts[..|cuts| - 1], cuts[|cuts| - 1];
      HistoryIsLawful(ops, v, before, front);
      var h := History(v, before, front);
      var view := Replay(before, h);
      PassGood(ops, v, view, c.a);
      var t := Trace(c.a, v, view);
      if c.at <= |t| { LawfulPrefix(g, v, view, t, c.at); }
      LawfulAppend(g, v, before, h, Executed(c, v, view));
    }
    LawfulRunKeeps(g, v, before, History(v, before, cuts));
  }

  /** At whatever effect the process stops, the journal is dependency-closed. */
  lemma {:induction false} EveryPrefixIsClosed(ops: seq<Op>, v: Version, before: View, cuts: seq<Cut>, k: nat)
    requires Attempts(ops, v, before, cuts) && k <= |History(v, before, cuts)|
    ensures Closed(ById(ops), v, Replay(before, History(v, before, cuts)[..k]))
  {
    hide Closed, Keyed, Lawful, LawfulRun, History, Replay;
    HistoryIsLawful(ops, v, before, cuts);
    LawfulPrefix(ById(ops), v, before, History(v, before, cuts), k);
    LawfulRunKeeps(ById(ops), v, before, History(v, before, cuts)[..k]);
  }

  lemma {:induction false} AppliedStays(g: Graph, v: Version, before: View, es: seq<Effect>, i: nat, j: nat, id: string)
    requires Closed(g, v, before) && LawfulRun(g, v, before, es) && i <= j <= |es|
    requires AppliedIn(Replay(before, es[..i]), v, id)
    ensures AppliedIn(Replay(before, es[..j]), v, id)
  {
    if i < j {
      AppliedStays(g, v, before, es, i, j - 1, id);
      hide Closed, Lawful, LawfulRun, Replay, AppliedIn;
      LawfulPrefix(g, v, before, es, j - 1);
      LawfulRunKeeps(g, v, before, es[..j - 1]);
      LawfulKeeps(g, v, Replay(before, es[..j - 1]), es[j - 1]);
      assert es[..j] == es[..j - 1] + [es[j - 1]];
      ReplayOne(before, es[..j - 1], es[j - 1]);
    }
  }

  /** Once an op is recorded as applied its handler is never called again at that version. */
  lemma {:induction false} AppliedIsNeverRerun(ops: seq<Op>, v: Version, before: View, cuts: seq<Cut>, i: nat, j: nat)
    requires Attempts(ops, v, before, cuts) && i < j < |History(v, before, cuts)|
    requires var e := History(v, before, cuts)[i]; e.Recorded? && e.res.state.Applied?
    ensures var e := History(v, before, cuts)[j];
            e.Ran? ==> e.opId != History(v, before, cuts)[i].res.opId
  {
    hide Closed, Keyed, LawfulRun, History, Replay;
    var g, es := ById(ops), History(v, before, cuts);
    HistoryIsLawful(ops, v, before, cuts);
    LawfulPrefix(g, v, before, es, i);
    LawfulPrefix(g, v, before, es, j);
    assert es[..i + 1] == es[..i] + [es[i]];
    ReplayOne(before, es[..i], es[i]);
    AppliedStays(g, v, before, es, i + 1, j, es[i].res.opId);
  }

  lemma {:induction false} TracePaired(g: Graph, v: Version, before: View, a: Attempt, done: set<string>)
    requires Good(g, v, before, FullPass(a, v, before), done)
    ensures Paired(Trace(a, v, before))
  {
    hide Agrees, LawfulRun, Closed, Keyed, FullPass, Replay;
    PairedSnoc(FullPass(a, v, before).effects, Advanced(v));
  }

  lemma {:induction false} PairedSnoc(es: seq<Effect>, e: Effect)
    requires AllRecorded(es)
    ensures Paired(es + [e])
  {
    forall i: nat | i + 1 < |es + [e]| && (es + [e])[i].Ran? ensures Matches((es + [e])[i], (es + [e])[i + 1]) {
      assert i + 1 < |es| ==> Matches(es[i], es[i + 1]);
    }
  }

  lemma {:induction false} CutPaired(ops: seq<Op>, v: Version, view: View, c: Cut)
    requires At(ops, c.a) && Closed(ById(ops), v, view) && Keyed(view.rows)
    ensures Paired(Executed(c, v, view))
  {
    hide Closed, Keyed, LawfulRun, TopoSpec, Good, Trace;
    PassGood(ops, v, view, c.a);
    TracePaired(ById(ops), v, view, c.a, ById(ops).Keys);
    var t, es := Trace(c.a, v, view), Executed(c, v, view);
    forall i: nat | i + 1 < |es| && es[i].Ran? ensures Matches(es[i], es[i + 1]) {
      assert Matches(t[i], t[i + 1]);
    }
  }

  /** A handler call is the last thing an attempt got to, or its record comes next. */
  lemma {:induction false} CallIsRecordedOrCut(ops: seq<Op>, v: Version, before: View, cuts: seq<Cut>,
                                               i: nat) returns (m: nat)
    requires Attempts(ops, v, before, cuts) && i < |History(v, before, cuts)|
    requires History(v, before, cuts)[i].Ran?
    ensures var h := History(v, before, cuts);
            || (i + 1 < |h| && Matches(h[i], h[i + 1]))
            || (m < |cuts| && |History(v, before, cuts[..m + 1])| == i + 1)
  {
    hide Closed, Keyed, TopoSpec, Replay, Executed, LawfulRun, Matches;
    var front, c := cuts[..|cuts| - 1], cuts[|cuts| - 1];
    var h := History(v, before, front);
    if i < |h| {
      m := CallIsRecordedOrCut(ops, v, before, front, i);
      assert m < |front| ==> cuts[..m + 1] == front[..m + 1];
    } else {
      m := |cuts| - 1;
      assert cuts[..m + 1] == cuts;
      HistoryIsLawful(ops, v, before, front);
      CutPaired(ops, v, Replay(before, h), c);
    }
  }

  /** A handler that succeeded is called again only when the process was cut between
      its return and its record: the first call is then the very last effect of an
      attempt, so each cut repeats at most one succeeded op. */
  lemma {:induction false} RerunMeansCutBeforeRecord(ops: seq<Op>, v: Version, before: View, cuts: seq<Cut>, i: nat,
                                                     j: nat) returns (m: nat)
    requires Attempts(ops, v, before, cuts) && i < j < |History(v, before, cuts)|
    requires var h := History(v, before, cuts); h[i].Ran? && h[i].ok && h[j].Ran? && h[j].opId == h[i].opId
    ensures m < |cuts| && |History(v, before, cuts[..m + 1])| == i + 1
  {
    hide Attempts, History;
    var h := History(v, before, cuts);
    m := CallIsRecordedOrCut(ops, v, before, cuts, i);
    if i + 1 < |h| && Matches(h[i], h[i + 1]) {
      AppliedIsNeverRerun(ops, v, before, cuts, i + 1, j);
      assert false;
    }
  }

  /** A handler call that succeeded and yet is followed by another for its op. */
  ghost predicate Repeated(h: seq<Effect>, i: nat) {
    i < |h| && h[i].Ran? && h[i].ok && exists j :: i < j < |h| && Again(h, i, j)
  }

  predicate Again(h: seq<Effect>, i: nat, j: nat)
    requires i < |h| && j < |h|
  {
    h[i].Ran? && h[j].Ran? && h[j].opId == h[i].opId
  }

  ghost function AllRepeated(h: seq<Effect>): set<nat> {
    set i: nat | i < |h| && Repeated(h, i)
  }

  /** The attempt did not get through all its effects. */
  predicate IsCut(c: Cut, v: Version, before: View) {
    c.at < |Trace(c.a, v, before)|
  }

  predicate LastIsCut(v: Version, before: View, cuts: seq<Cut>)
    requires |cuts| != 0
  {
    IsCut(cuts[|cuts| - 1], v, Replay(before, History(v, before, cuts[..|cuts| - 1])))
  }

  /** How many attempts were cut, and where they ended. */
  function CutCount(v: Version, before: View, cuts: seq<Cut>): nat {
    if |cuts| == 0 then 0 else CutCount(v, before, cuts[..|cuts| - 1]) + if LastIsCut(v, before, cuts) then 1 else 0
  }

  function Ends(v: Version, before: View, cuts: seq<Cut>): set<int> {
    if |cuts| == 0 then {}
    else Ends(v, before, cuts[..|cuts| - 1]) + if LastIsCut(v, before, cuts) then {|History(v, before, cuts)| - 1}
        else {}
  }

  lemma {:induction false} EndsAreFew(v: Version, before: View, cuts: seq<Cut>)
    ensures |Ends(v, before, cuts)| <= CutCount(v, before, cuts)
  {
    hide History, LastIsCut;
    if |cuts| != 0 { EndsAreFew(v, before, cuts[..|cuts| - 1]); }
  }

  lemma {:induction false} EndIsThere(v: Version, before: View, cuts: seq<Cut>, m: nat)
    requires m < |cuts| && LastIsCut(v, before, cuts[..m + 1])
    ensures |History(v, before, cuts[..m + 1])| - 1 in Ends(v, before, cuts)
  {
    hide History, LastIsCut;
    if m == |cuts| - 1 {
      assert cuts[..m + 1] == cuts;
    } else {
      assert cuts[..|cuts| - 1][..m + 1] == cuts[..m + 1];
      EndIsThere(v, before, cuts[..|cuts| - 1], m);
    }
  }

  lemma {:induction false} CompleteEnds(v: Version, before: View, cuts: seq<Cut>)
    requires |cuts| != 0 && !LastIsCut(v, before, cuts)
    ensures var h := History(v, before, cuts); |h| > 0 && h[|h| - 1] == Advanced(v)
  {
    hide FullPass, Replay;
    var front := History(v, before, cuts[..|cuts| - 1]);
    var view, c := Replay(before, front), cuts[|cuts| - 1];
    var t := Trace(c.a, v, view);
    assert t[..|t|] == t;
    assert History(v, before, cuts) == front + t;
  }

  /** An attempt that ends with a handler call was cut: a complete one ends with the watermark. */
  lemma {:induction false} CallMeansCut(v: Version, before: View, cuts: seq<Cut>)
    requires |cuts| != 0 && |History(v, before, cuts)| > 0
    requires var h := History(v, before, cuts); h[|h| - 1].Ran?
    ensures LastIsCut(v, before, cuts)
  {
    hide History, LastIsCut;
    if !LastIsCut(v, before, cuts) { CompleteEnds(v, before, cuts); }
  }

  lemma {:induction false} HistoryGrows(v: Version, before: View, cuts: seq<Cut>, m: nat)
    requires m <= |cuts|
    ensures History(v, before, cuts[..m]) <= History(v, before, cuts)
  {
    if m == |cuts| {
      assert cuts[..m] == cuts;
    } else {
      assert cuts[..|cuts| - 1][..m] == cuts[..m];
      HistoryGrows(v, before, cuts[..|cuts| - 1], m);
    }
  }

  lemma {:induction false} NoMore(a: set<nat>, b: set<int>)
    requires forall i :: i in a ==> i as int in b
    ensures |a| <= |b|
  {
    if i :| i in a { NoMore(a - {i}, b - {i}); }
  }

  /** Each cut repeats at most one succeeded call: a history has at most as many calls that
      succeeded and were made again as it has attempts that were cut. */
  lemma {:induction false} RepeatsAreFew(ops: seq<Op>, v: Version, before: View, cuts: seq<Cut>)
    requires Attempts(ops, v, before, cuts)
    ensures |AllRepeated(History(v, before, cuts))| <= CutCount(v, before, cuts)
  {
    hide Attempts, History, LastIsCut;
    var h := History(v, before, cuts);
    forall i | i in AllRepeated(h) ensures i as int in Ends(v, before, cuts) {
      var j :| i < j < |h| && Again(h, i, j);
      var m := RerunMeansCutBeforeRecord(ops, v, before, cuts, i, j);
      HistoryGrows(v, before, cuts, m + 1);
      CallMeansCut(v, before, cuts[..m + 1]);
      EndIsThere(v, before, cuts, m);
    }
    NoMore(AllRepeated(h), Ends(v, before, cuts));
    EndsAreFew(v, before, cuts);
  }

  lemma {:induction false} WatermarkLawful(g: Graph, v: Version, before: View, es: seq<Effect>)
    requires LawfulRun(g, v, before, es)
    ensures Replay(before, es).applied != before.applied ==>
              Replay(before, es).applied == v && forall id :: id in g ==> Slot(v, id) in Replay(before, es).rows
  {
    if |es| != 0 { WatermarkLawful(g, v, before, es[..|es| - 1]); }
  }

  /** The applied watermark has moved only if every op of the document has a record. */
  lemma {:induction false} WatermarkMeansRecorded(ops: seq<Op>, v: Version, before: View, cuts: seq<Cut>, k: nat)
    requires Attempts(ops, v, before, cuts) && k <= |History(v, before, cuts)|
    requires Replay(before, History(v, before, cuts)[..k]).applied != before.applied
    ensures Replay(before, History(v, before, cuts)[..k]).applied == v
    ensures forall op :: op in ops ==> Slot(v, op.id) in Replay(before, History(v, before, cuts)[..k]).rows
  {
    hide Closed, Keyed, Lawful, LawfulRun, History, Replay;
    HistoryIsLawful(ops, v, before, cuts);
    LawfulPrefix(ById(ops), v, before, History(v, before, cuts), k);
    WatermarkLawful(ById(ops), v, before, History(v, before, cuts)[..k]);
  }

  // ---- what a completed attempt leaves ----

  /** The version's rows are about ops of the document: a version names one document. */
  ghost predicate Belongs(g: Graph, v: Version, view: View) {
    forall s: Slot :: s in view.rows && s.version == v ==> s.opId in g
  }

  lemma {:induction false} BelongsKept(g: Graph, v: Version, before: View, es: seq<Effect>)
    requires Belongs(g, v, before) && LawfulRun(g, v, before, es)
    ensures Belongs(g, v, Replay(before, es))
  {
    if |es| != 0 { BelongsKept(g, v, before, es[..|es| - 1]); }
  }

  /** When `Apply` completes, reading the journal back by version gives exactly the
      results it returned: a report re-derived later is the report it would have sent. */
  lemma {:induction false} JournalHoldsTheResults(ops: seq<Op>, v: Version, before: View, a: Attempt)
    requires At(ops, a) && Closed(ById(ops), v, before) && Keyed(before.rows) && Belongs(ById(ops), v, before)
    ensures var after, results := Replay(before, Trace(a, v, before)), FullPass(a, v, before).results;
            && OfVersion(after.rows, v) == results && results.Keys == ById(ops).Keys
            && after.applied == v && after.reported == before.reported
    ensures forall s: Slot :: s.version != v ==>
              var after := Replay(before, Trace(a, v, before));
              (s in after.rows <==> s in before.rows) && (s in after.rows ==> after.rows[s] == before.rows[s])
  {
    hide TopoSpec, LawfulRun, Closed, Keyed, Justified, AllRecorded, FullPass, Replay, Doomed;
    PassGood(ops, v, before, a);
    var p := FullPass(a, v, before);
    ReplayOne(before, p.effects, Advanced(v));
    AgreesRead(ById(ops), v, before, Replay(before, p.effects), p.results);
  }

  lemma {:induction false} AgreesRead(g: Graph, v: Version, before: View, now: View, results: map<string, OpResult>)
    requires Agrees(g, v, before, now, results, g.Keys) && Belongs(g, v, before)
    ensures OfVersion(now.rows, v) == results && results.Keys == g.Keys && now.reported == before.reported
    ensures forall s: Slot :: s.version != v ==>
              (s in now.rows <==> s in before.rows) && (s in now.rows ==> now.rows[s] == before.rows[s])
  {
    hide Justified, Doomed;
  }

  // ---- resuming changes nothing: handlers that answer each op the same way ----

  /** Applied rows are what the registry's handlers give. */
  ghost predicate Honest(r: Registry, g: Graph, v: Version, view: View) {
    forall id :: AppliedIn(view, v, id) ==> id in g && view.rows[Slot(v, id)] == Execute(r, v, g[id])
  }

  ghost predicate Faithful(r: Registry, g: Graph, v: Version, results: map<string, OpResult>) {
    forall id :: id in results && id in g && !Doomed(g, id) && !results[id].state.Skipped? ==>
        results[id] == Execute(r, v, g[id])
  }

  ghost predicate FaithfulPass(r: Registry, g: Graph, v: Version, before: View, p: Pass) {
    Honest(r, g, v, Replay(before, p.effects)) && Faithful(r, g, v, p.results)
  }

  lemma {:induction false} NoteFaithful(r: Registry, g: Graph, v: Version, before: View, p: Pass, call: seq<Effect>,
                                        res: OpResult)
    requires FaithfulPass(r, g, v, before, p)
    requires res.version == v && res.opId in g && (call == [] || exists ok :: call == [Ran(res.opId, ok)])
    requires res == Execute(r, v, g[res.opId]) || res.state.Skipped? || (res.state.Failed? && Doomed(g, res.opId))
    ensures FaithfulPass(r, g, v, before, Note(p.(effects := p.effects + call), res))
  {
    hide Doomed, Execute;
    if call == [] { assert p.effects + call == p.effects; } else { ReplayOne(before, p.effects, call[0]); }
    ReplayOne(before, p.effects + call, Recorded(res));
    hide Replay, Honest, Faithful;
    RecordHonest(r, g, v, Replay(before, p.effects), res);
    RecordFaithful(r, g, v, p.results, res);
  }

  lemma {:induction false} RecordHonest(r: Registry, g: Graph, v: Version, view: View, res: OpResult)
    requires Honest(r, g, v, view) && res.version == v && res.opId in g
    requires res == Execute(r, v, g[res.opId]) || !res.state.Applied?
    ensures Honest(r, g, v, Do(view, Recorded(res)))
  {
    hide Execute;
  }

  lemma {:induction false} RecordFaithful(r: Registry, g: Graph, v: Version, results: map<string, OpResult>,
                                          res: OpResult)
    requires Faithful(r, g, v, results) && res.opId in g
    requires res == Execute(r, v, g[res.opId]) || res.state.Skipped? || Doomed(g, res.opId)
    ensures Faithful(r, g, v, results[res.opId := res])
  {
    hide Execute, Doomed;
  }

  lemma {:induction false} OpenFaithful(r: Registry, g: Graph, v: Version, before: View, ids: seq<string>)
    requires Honest(r, g, v, before) && forall id :: id in ids ==> id in g && Doomed(g, id)
    ensures FaithfulPass(r, g, v, before, Open(v, ids))
  {
    if |ids| != 0 {
      var front, id := ids[..|ids| - 1], ids[|ids| - 1];
      OpenFaithful(r, g, v, before, front);
      var p := Open(v, front);
      assert p.(effects := p.effects + []) == p;
      hide Doomed, Honest, Faithful;
      NoteFaithful(r, g, v, before, p, [], Unorderable(v, id));
    }
  }

  lemma {:induction false} StepFaithful(r: Registry, g: Graph, v: Version, before: View, p: Pass, op: Op)
    requires FaithfulPass(r, g, v, before, p) && op.id in g && g[op.id] == op
    ensures FaithfulPass(r, g, v, before, Step(r, v, before, p, op))
  {
    hide Doomed, Execute, SkipReason;
    if !AppliedIn(Replay(before, p.effects), v, op.id) {
      match SkipReason(op.dependsOn, p.results, p.failed)
      case Some(why) =>
        assert p.(effects := p.effects + []) == p;
        NoteFaithful(r, g, v, before, p, [], OpResult(v, op.id, Skipped, why));
      case None =>
        NoteFaithful(r, g, v, before, p, Call(r, v, op), Execute(r, v, op));
    }
  }

  lemma {:induction false} SweepFaithful(r: Registry, g: Graph, v: Version, before: View, p: Pass, ops: seq<Op>)
    requires FaithfulPass(r, g, v, before, p) && Sequenced(g, ops)
    ensures FaithfulPass(r, g, v, before, Sweep(r, v, before, p, ops))
  {
    hide Honest, Faithful, Step, Sequenced;
    if |ops| != 0 {
      SequencedFront(g, ops);
      SweepFaithful(r, g, v, before, p, ops[..|ops| - 1]);
      StepFaithful(r, g, v, before, Sweep(r, v, before, p, ops[..|ops| - 1]), ops[|ops| - 1]);
    }
  }

  /** A prefix of what a pass does also keeps the applied rows honest. */
  lemma {:induction false} HonestPrefix(r: Registry, g: Graph, v: Version, before: View, es: seq<Effect>, k: nat)
    requires Honest(r, g, v, Replay(before, es)) && LawfulRun(g, v, before, es) && Closed(g, v, before) && k <= |es|
    ensures Honest(r, g, v, Replay(before, es[..k]))
  {
    forall id | AppliedIn(Replay(before, es[..k]), v, id)
      ensures id in g && Replay(before, es[..k]).rows[Slot(v, id)] == Execute(r, v, g[id])
    {
      AppliedRowStays(g, v, before, es, k, |es|, id);
      assert es[..|es|] == es;
    }
  }

  lemma {:induction false} AppliedRowStays(g: Graph, v: Version, before: View, es: seq<Effect>, i: nat, j: nat,
                                           id: string)
    requires Closed(g, v, before) && LawfulRun(g, v, before, es) && i <= j <= |es|
    requires AppliedIn(Replay(before, es[..i]), v, id)
    ensures AppliedIn(Replay(before, es[..j]), v, id)
    ensures Replay(before, es[..j]).rows[Slot(v, id)] == Replay(before, es[..i]).rows[Slot(v, id)]
  {
    hide Closed;
    if i < j {
      AppliedRowStays(g, v, before, es, i, j - 1, id);
      LawfulPrefix(g, v, before, es, j - 1);
      assert es[..j] == es[..j - 1] + [es[j - 1]];
      ReplayOne(before, es[..j - 1], es[j - 1]);
    }
  }

  lemma {:induction false} PassFaithful(ops: seq<Op>, v: Version, before: View, a: Attempt)
    requires At(ops, a) && Honest(a.r, ById(ops), v, before)
    ensures FaithfulPass(a.r, ById(ops), v, before, FullPass(a, v, before))
  {
    hide Doomed, Sequenced, DoomedIds, FaithfulPass, Honest;
    DoomedSplit(ops, a.ordered, a.unresolved);
    OpenFaithful(a.r, ById(ops), v, before, a.unresolved);
    SweepFaithful(a.r, ById(ops), v, before, Open(v, a.unresolved), a.ordered);
  }

  lemma {:induction false} HistoryIsHonest(r: Registry, ops: seq<Op>, v: Version, before: View, cuts: seq<Cut>)
    requires Attempts(ops, v, before, cuts) && Honest(r, ById(ops), v, before)
    requires forall i :: 0 <= i < |cuts| ==> cuts[i].a.r == r
    ensures Honest(r, ById(ops), v, Replay(before, History(v, before, cuts)))
  {
    hide Closed, Keyed, Lawful, Honest, TopoSpec, LawfulRun, Good;
    if |cuts| != 0 {
      var front, c := cuts[..|cuts| - 1], cuts[|cuts| - 1];
      var h := History(v, before, front);
      var view := Replay(before, h);
      HistoryIsHonest(r, ops, v, before, front);
      HistoryIsLawful(ops, v, before, front);
      AttemptIsHonest(ops, v, view, c);
      ReplayAppend(before, h, Executed(c, v, view));
    }
  }

  lemma {:induction false} AttemptIsHonest(ops: seq<Op>, v: Version, view: View, c: Cut)
    requires At(ops, c.a) && Honest(c.a.r, ById(ops), v, view)
    requires Closed(ById(ops), v, view) && Keyed(view.rows)
    ensures Honest(c.a.r, ById(ops), v, Replay(view, Executed(c, v, view)))
  {
    hide Closed, Keyed, Lawful, TopoSpec, LawfulRun, Good, Faithful;
    var t := Trace(c.a, v, view);
    PassGood(ops, v, view, c.a);
    PassFaithful(ops, v, view, c.a);
    ReplayOne(view, FullPass(c.a, v, view).effects, Advanced(v));
    assert Honest(c.a.r, ById(ops), v, Replay(view, t));
    if c.at <= |t| { HonestPrefix(c.a.r, ById(ops), v, view, t, c.at); }
  }

  /** The results of a document are determined by its graph and the handlers: along
      any dependency order, each follows from those before it. */
  lemma {:induction false} VerdictsAreUnique(r: Registry, g: Graph, v: Version, order: seq<Op>, k: nat,
                                             s: map<string, OpResult>, t: map<string, OpResult>)
    requires Sequenced(g, order) && k <= |order| && s.Keys == t.Keys == g.Keys
    requires forall id :: id in g ==> Justified(g, v, s, id) && Justified(g, v, t, id)
    requires Faithful(r, g, v, s) && Faithful(r, g, v, t)
    ensures forall i :: 0 <= i < k ==> s[order[i].id] == t[order[i].id]
  {
    hide Doomed, Execute;
    if k > 0 {
      VerdictsAreUnique(r, g, v, order, k - 1, s, t);
      var op := order[k - 1];
      forall dep | dep in op.dependsOn ensures dep in s && s[dep] == t[dep] {
        assert dep in Ids(order[..k - 1]);
        var o :| o in order[..k - 1] && o.id == dep;
      }
      SkipReasonLocal(op.dependsOn, s, t);
      OneVerdict(r, g, v, s, t, op.id);
    }
  }

  lemma {:induction false} OneVerdict(r: Registry, g: Graph, v: Version, s: map<string, OpResult>,
                                      t: map<string, OpResult>, id: string)
    requires Justified(g, v, s, id) && Justified(g, v, t, id) && Faithful(r, g, v, s) && Faithful(r, g, v, t)
    requires id in g && SkipReason(g[id].dependsOn, s, Broken(s)) == SkipReason(g[id].dependsOn, t, Broken(t))
    ensures s[id] == t[id]
  {
    hide Doomed, Execute, SkipReason;
  }

  lemma {:induction false} ResultsAreUnique(r: Registry, ops: seq<Op>, v: Version, a: Attempt,
                                            s: map<string, OpResult>, t: map<string, OpResult>)
    requires At(ops, a) && s.Keys == t.Keys == ById(ops).Keys
    requires forall id :: id in ById(ops) ==> Justified(ById(ops), v, s, id) && Justified(ById(ops), v, t, id)
    requires Faithful(r, ById(ops), v, s) && Faithful(r, ById(ops), v, t)
    ensures s == t
  {
    hide Faithful, Sequenced, DoomedIds, SkipReason, Doomed;
    var g := ById(ops);
    VerdictsAreUnique(r, g, v, a.ordered, |a.ordered|, s, t);
    forall id | id in g ensures s[id] == t[id] {
      if !Doomed(g, id) {
        assert id in Ids(a.ordered);
        var o :| o in a.ordered && o.id == id;
      }
    }
  }

  /** Crash-resume equivalence: however often attempts were cut and wherever, the attempt
      that completes returns, and leaves in the journal, exactly what one uncut run from
      the start would have. `last` and `once` may even order the ops differently. */
  lemma {:induction false} ResumeEqualsOneRun(r: Registry, ops: seq<Op>, v: Version, before: View, cuts: seq<Cut>,
                                              last: Attempt, once: Attempt)
    requires Keyed(before.rows) && forall s :: s in before.rows ==> s.version != v
    requires At(ops, last) && At(ops, once) && last.r == once.r == r
    requires forall i :: 0 <= i < |cuts| ==> At(ops, cuts[i].a) && cuts[i].a.r == r
    ensures var view := Replay(before, History(v, before, cuts));
            var results := FullPass(last, v, view).results;
            && results == FullPass(once, v, before).results
            && OfVersion(Replay(view, Trace(last, v, view)).rows, v) == results
            && OfVersion(Replay(before, Trace(once, v, before)).rows, v) == results
  {
    hide TopoSpec, Faithful, LawfulRun, AllRecorded, Trace, History, Replay, Keyed;
    var g := ById(ops);
    assert Closed(g, v, before) && Honest(r, g, v, before) && Belongs(g, v, before);
    hide Closed, Honest, Belongs;
    var view := Replay(before, History(v, before, cuts));
    HistoryIsLawful(ops, v, before, cuts);
    HistoryIsHonest(r, ops, v, before, cuts);
    BelongsKept(g, v, before, History(v, before, cuts));
    JournalHoldsTheResults(ops, v, view, last);
    JournalHoldsTheResults(ops, v, before, once);
    PassGood(ops, v, view, last);
    PassGood(ops, v, before, once);
    PassFaithful(ops, v, view, last);
    PassFaithful(ops, v, before, once);
    ResultsAreUnique(r, ops, v, once, FullPass(last, v, view).results, FullPass(once, v, before).results);
  }

  // ---- skips trace to a root ----

  predicate EndsWith(s: string, tail: string) {
    |tail| <= |s| && s[|s| - |tail|..] == tail
  }

  lemma {:induction false} ReasonNamesOne(deps: seq<string>, results: map<string, OpResult>) returns (dep: string)
    requires SkipReason(deps, results, Broken(results)).Some?
    ensures dep in deps && dep in Broken(results)
    ensures SkipReason(deps, results, Broken(results)) == Some(Blame(dep, results))
  {
    if deps[0] in Broken(results) { dep := deps[0]; } else { dep := ReasonNamesOne(deps[1..], results); }
  }

  lemma {:induction false} BlameQuotes(dep: string, results: map<string, OpResult>)
    requires dep in results
    ensures EndsWith(Blame(dep, results), results[dep].err)
  {
  }

  /** From a skipped op dependency edges lead, through skipped ops only, to an op that
      failed, and the skip's error text ends with that op's. */
  lemma {:induction false} SkipTracesToRoot(g: Graph, v: Version, order: seq<Op>, k: nat,
                                            results: map<string, OpResult>) returns (p: seq<string>)
    requires Sequenced(g, order) && k < |order| && results.Keys == g.Keys
    requires forall id :: id in g ==> Justified(g, v, results, id)
    requires forall i :: 0 <= i < |order| ==> !Doomed(g, order[i].id)
    requires results[order[k].id].state.Skipped?
    ensures IsPath(g, p) && |p| > 1 && p[0] == order[k].id
    ensures forall i :: 0 <= i < |p| - 1 ==> p[i] in results && results[p[i]].state.Skipped?
    ensures p[|p| - 1] in results && results[p[|p| - 1]].state.Failed?
    ensures EndsWith(results[order[k].id].err, results[p[|p| - 1]].err)
  {
    hide Doomed, SkipReason;
    var op := order[k];
    var dep := ReasonNamesOne(op.dependsOn, results);
    BlameQuotes(dep, results);
    assert dep in Ids(order[..k]);
    var o :| o in order[..k] && o.id == dep;
    var m :| 0 <= m < k && order[m] == o;
    if results[dep].state.Failed? {
      p := [op.id, dep];
      assert IsPath(g, p);
    } else {
      var q := SkipTracesToRoot(g, v, order, m, results);
      p := [op.id] + q;
      forall i: nat | i + 1 < |p| ensures Edge(g, p, i) {
        if i > 0 { assert Edge(g, q, i - 1); }
      }
    }
  }

  /** So does every skip in what a completed `Apply` returns. */
  lemma {:induction false} EverySkipHasARoot(ops: seq<Op>, v: Version, before: View, a: Attempt,
                                             id: string) returns (p: seq<string>)
    requires At(ops, a) && Closed(ById(ops), v, before) && Keyed(before.rows)
    requires var results := FullPass(a, v, before).results; id in results && results[id].state.Skipped?
    ensures var results := FullPass(a, v, before).results;
            && IsPath(ById(ops), p) && |p| > 1 && p[0] == id
            && (forall i :: 0 <= i < |p| - 1 ==> p[i] in results && results[p[i]].state.Skipped?)
            && p[|p| - 1] in results && results[p[|p| - 1]].state.Failed?
            && EndsWith(results[id].err, results[p[|p| - 1]].err)
  {
    hide LawfulRun, Closed, Keyed, AllRecorded, FullPass, Replay, SkipReason, DoomedIds, Doomed, Sequenced;
    var g, results := ById(ops), FullPass(a, v, before).results;
    PassGood(ops, v, before, a);
    DoomedSplit(ops, a.ordered, a.unresolved);
    var k := PlaceOf(g, v, a.ordered, results, id);
    p := SkipTracesToRoot(g, v, a.ordered, k, results);
  }

  lemma {:induction false} PlaceOf(g: Graph, v: Version, order: seq<Op>, results: map<string, OpResult>,
                                   id: string) returns (k: nat)
    requires Justified(g, v, results, id) && results[id].state.Skipped?
    requires !Doomed(g, id) ==> id in Ids(order)
    ensures k < |order| && order[k].id == id
  {
    hide SkipReason, Doomed;
    var o :| o in order && o.id == id;
    k :| k < |order| && order[k] == o;
  }
}
