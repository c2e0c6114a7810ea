/** agent/internal/apply/apply.go: the serial apply loop over the journal. */
module Apply {
  import opened Wrappers
  import opened Dsd
  import opened Journal

  /** How one handler call ended: the error it returned, and whether its own deadline
      passed while the caller's context was still live. */
  datatype HandlerRun = HandlerRun(err: Option<string>, timedOut: bool)

  /** The registered handlers and timeouts (in nanoseconds), with the two renderings
      of fmt the error texts use: `%s` of a duration and `%q` of a kind. */
  datatype Registry = Registry(
    handlers: map<string, Op -> HandlerRun>,
    timeouts: map<string, int>,
    showDuration: int -> string,
    quote: string -> string)

  const DefaultOpTimeout: int := 15 * 60 * 1_000_000_000

  function TimeoutFor(r: Registry, kind: string): int {
    if kind in r.timeouts && r.timeouts[kind] > 0 then r.timeouts[kind] else DefaultOpTimeout
  }

  /** The result of giving `op` to the handler of its kind. */
  function Execute(r: Registry, v: Version, op: Op): (res: OpResult)
    ensures res.version == v && res.opId == op.id && !res.state.Skipped?
  {
    if op.kind !in r.handlers then
      OpResult(v, op.id, Failed, "unknown op kind " + r.quote(op.kind))
    else
      var run := r.handlers[op.kind](op);
      if run.timedOut then
        OpResult(v, op.id, Failed, "op timed out after " + r.showDuration(TimeoutFor(r, op.kind)) +
                                   if run.err.Some? then ": " + run.err.value else "")
      else if run.err.Some? then
        OpResult(v, op.id, Failed, run.err.value)
      else
        OpResult(v, op.id, Applied, "")
  }

  function Unorderable(v: Version, id: string): OpResult {
    OpResult(v, id, Failed, "unorderable (cycle or missing dependency)")
  }

  function Blame(dep: string, results: map<string, OpResult>): string {
    if dep in results && results[dep].err != ""
    then "prerequisite " + dep + " failed: " + results[dep].err
    else "prerequisite " + dep + " failed"
  }

  /** The blame for the first dependency that failed or was skipped. */
  function SkipReason(deps: seq<string>, results: map<string, OpResult>, failed: set<string>): Option<string> {
    if |deps| == 0 then None
    else if deps[0] in failed then Some(Blame(deps[0], results))
    else SkipReason(deps[1..], results, failed)
  }

  // ---- what an attempt does, effect by effect ----

  /** A handler call (and whether it succeeded), a result written to the journal,
      or the applied watermark moved. */
  datatype Effect = Ran(opId: string, ok: bool) | Recorded(res: OpResult) | Advanced(version: Version)

  function Do(v: View, e: Effect): View {
    match e
    case Ran(_, _) => v
    case Recorded(res) => v.(rows := v.rows[SlotOf(res) := res])
    case Advanced(w) => v.(applied := w)
  }

  function Replay(v: View, es: seq<Effect>): View {
    if |es| == 0 then v else Do(Replay(v, es[..|es| - 1]), es[|es| - 1])
  }

  /** The effects so far and the loop's two maps. */
  datatype Pass = Pass(effects: seq<Effect>, results: map<string, OpResult>, failed: set<string>)

  function Note(p: Pass, res: OpResult): Pass {
    Pass(p.effects + [Recorded(res)], p.results[res.opId := res],
         if res.state.Applied? then p.failed else p.failed + {res.opId})
  }

  function Open(v: Version, ids: seq<string>): Pass {
    if |ids| == 0 then Pass([], map[], {}) else Note(Open(v, ids[..|ids| - 1]), Unorderable(v, ids[|ids| - 1]))
  }

  predicate AppliedIn(view: View, v: Version, id: string) {
    Slot(v, id) in view.rows && view.rows[Slot(v, id)].state.Applied?
  }

  /** The handler call of `op`, where its kind has a handler. */
  function Call(r: Registry, v: Version, op: Op): seq<Effect> {
    if op.kind in r.handlers then [Ran(op.id, Execute(r, v, op).state.Applied?)] else []
  }

  function Step(r: Registry, v: Version, before: View, p: Pass, op: Op): Pass {
    var now := Replay(before, p.effects);
    if AppliedIn(now, v, op.id) then
      p.(results := p.results[op.id := now.rows[Slot(v, op.id)]])
    else match SkipReason(op.dependsOn, p.results, p.failed)
      case Some(why) => Note(p, OpResult(v, op.id, Skipped, why))
      case None => Note(p.(effects := p.effects + Call(r, v, op)), Execute(r, v, op))
  }

  function Sweep(r: Registry, v: Version, before: View, p: Pass, ops: seq<Op>): Pass {
    if |ops| == 0 then p else Step(r, v, before, Sweep(r, v, before, p, ops[..|ops| - 1]), ops[|ops| - 1])
  }

  /** One attempt: the registry as its handlers behave this time, and the order found. */
  datatype Attempt = Attempt(r: Registry, ordered: seq<Op>, unresolved: seq<string>)

  function FullPass(a: Attempt, v: Version, before: View): Pass {
    Sweep(a.r, v, before, Open(v, a.unresolved), a.ordered)
  }

  function Trace(a: Attempt, v: Version, before: View): seq<Effect> {
    FullPass(a, v, before).effects + [Advanced(v)]
  }

  lemma {:induction false} ReplayNone(v: View)
    ensures Replay(v, []) == v
  {
  }

  lemma {:induction false} ReplayOne(v: View, es: seq<Effect>, e: Effect)
    ensures Replay(v, es + [e]) == Do(Replay(v, es), e)
  {
    assert (es + [e])[..|es|] == es;
  }

  lemma {:induction false} ReplayAppend(v: View, a: seq<Effect>, b: seq<Effect>)
    ensures Replay(v, a + b) == Replay(Replay(v, a), b)
  {
    if |b| == 0 {
      assert a + b == a;
    } else {
      var c := b[..|b| - 1];
      assert a + b == (a + c) + [b[|b| - 1]];
      ReplayOne(v, a + c, b[|b| - 1]);
      ReplayAppend(v, a, c);
    }
  }

  lemma {:induction false} StepGrows(r: Registry, v: Version, before: View, p: Pass, op: Op)
    ensures p.effects <= Step(r, v, before, p, op).effects
  {
  }

  lemma {:induction false} SweepGrows(r: Registry, v: Version, before: View, p: Pass, ops: seq<Op>, k: nat)
    requires k <= |ops|
    ensures Sweep(r, v, before, p, ops[..k]).effects <= Sweep(r, v, before, p, ops).effects
  {
    if k == |ops| {
      assert ops[..k] == ops;
    } else {
      var front := ops[..|ops| - 1];
      assert front[..k] == ops[..k];
      SweepGrows(r, v, before, p, front, k);
      StepGrows(r, v, before, Sweep(r, v, before, p, front), ops[|ops| - 1]);
    }
  }

  lemma {:induction false} OpenGrows(v: Version, ids: seq<string>, k: nat)
    requires k <= |ids|
    ensures Open(v, ids[..k]).effects <= Open(v, ids).effects
  {
    if k == |ids| {
      assert ids[..k] == ids;
    } else {
      assert ids[..|ids| - 1][..k] == ids[..k];
      OpenGrows(v, ids[..|ids| - 1], k);
    }
  }

  // ---- the loop itself ----

  /** `es` is what this attempt had done when it stopped. */
  ghost predicate Reached(a: Attempt, v: Version, before: View, es: seq<Effect>) {
    es <= Trace(a, v, before)
  }

  method FirstFailed(deps: seq<string>, results: map<string, OpResult>,
                     failed: set<string>) returns (why: Option<string>)
    ensures why == SkipReason(deps, results, failed)
  {
    for i := 0 to |deps|
      invariant SkipReason(deps, results, failed) == SkipReason(deps[i..], results, failed)
    {
      if deps[i] in failed {
        return Some(Blame(deps[i], results));
      }
    }
    return None;
  }

  /** What is left of the script is the rest of it, and a failure was a failed transaction. */
  predicate Suffers(before: seq<bool>, after: seq<bool>, ok: bool) {
    (!ok ==> false in before) && (false in after ==> false in before)
  }

  /** Records the ids that cannot be ordered. */
  method RecordUnresolved(j: Journal, v: Version, unresolved: seq<string>) returns (ok: bool, p: Pass)
    requires j.Valid()
    modifies j`script, j`rows, j`table
    ensures j.Valid() && Suffers(old(j.script), j.script, ok)
    ensures p.effects <= Open(v, unresolved).effects
    ensures j.Contents() == Replay(old(j.Contents()), p.effects)
    ensures ok ==> p == Open(v, unresolved)
  {
    hide Stores, InOrder, Replay;
    assert Replay(j.Contents(), []) == j.Contents() by { ReplayNone(j.Contents()); }
    p := Pass([], map[], {});
    for i := 0 to |unresolved|
      invariant j.Valid() && p == Open(v, unresolved[..i]) && Suffers(old(j.script), j.script, true)
      invariant j.Contents() == Replay(old(j.Contents()), p.effects)
    {
      assert unresolved[..i + 1][..i] == unresolved[..i];
      OpenGrows(v, unresolved, i);
      var res := Unorderable(v, unresolved[i]);
      var written := j.Record(res);
      if !written { return false, p; }
      ReplayOne(old(j.Contents()), p.effects, Recorded(res));
      p := Note(p, res);
    }
    assert unresolved[..|unresolved|] == unresolved;
    return true, p;
  }

  /** The loop body: resume, skip, or run and record. */
  method ApplyOne(r: Registry, j: Journal, v: Version, ghost before: View, p: Pass, op: Op) returns (ok: bool, p': Pass)
    requires j.Valid() && j.Contents() == Replay(before, p.effects)
    modifies j`script, j`rows, j`table
    ensures j.Valid() && Suffers(old(j.script), j.script, ok)
    ensures p'.effects <= Step(r, v, before, p, op).effects
    ensures j.Contents() == Replay(before, p'.effects)
    ensures ok ==> p' == Step(r, v, before, p, op)
  {
    hide Stores, InOrder, Replay, SkipReason;
    var read, prev := j.Result(v, op.id);
    if !read { return false, p; }
    if prev.Some? && prev.value.state.Applied? {
      return true, p.(results := p.results[op.id := prev.value]);
    }
    assert !AppliedIn(Replay(before, p.effects), v, op.id);
    var why := FirstFailed(op.dependsOn, p.results, p.failed);
    if why.Some? {
      var res := OpResult(v, op.id, Skipped, why.value);
      var written := j.Record(res);
      if !written { return false, p; }
      ReplayOne(before, p.effects, Recorded(res));
      return true, Note(p, res);
    }
    var res := Execute(r, v, op);
    var q := p.(effects := p.effects + Call(r, v, op));
    if op.kind in r.handlers { ReplayOne(before, p.effects, Ran(op.id, res.state.Applied?)); }
    assert Replay(before, q.effects) == Replay(before, p.effects) by { if op.kind !in r.handlers { assert q == p; } }
    var written := j.Record(res);
    if !written { return false, q; }
    ReplayOne(before, q.effects, Recorded(res));
    return true, Note(q, res);
  }

  /** `Registry.Apply`. The journal it leaves is what replaying the effects it got
      through leaves; it returns results exactly when it got through all of them. */
  method Apply(r: Registry, j: Journal, doc: Document)
    returns (results: Option<map<string, OpResult>>, ghost a: Attempt, ghost es: seq<Effect>)
    requires j.Valid()
    modifies j`script, j`rows, j`table, j`lastApplied
    ensures j.Valid() && a.r == r && TopoSpec(doc.ops, a.ordered, a.unresolved)
    ensures Reached(a, doc.version, old(j.Contents()), es)
    ensures j.Contents() == Replay(old(j.Contents()), es)
    ensures results.Some? ==> es == Trace(a, doc.version, old(j.Contents()))
    ensures results.Some? ==> results.value == FullPass(a, doc.version, old(j.Contents())).results
    ensures j.lastApplied == if results.Some? then doc.version else old(j.lastApplied)
    ensures results.None? ==> |es| < |Trace(a, doc.version, old(j.Contents()))|
    ensures Suffers(old(j.script), j.script, results.Some?)
  {
    hide TopoSpec, Replay, Step, Stores, InOrder, Open, SkipReason, Ids, ById;
    ghost var before := j.Contents();
    var v := doc.version;
    var ordered, unresolved := TopoOrder(doc.ops);
    a := Attempt(r, ordered, unresolved);
    var ok, p := RecordUnresolved(j, v, unresolved);
    assert ordered[..0] == [];
    SweepGrows(r, v, before, Open(v, unresolved), ordered, 0);
    if !ok { return None, a, p.effects; }
    for i := 0 to |ordered|
      invariant j.Valid() && p == Sweep(r, v, before, Open(v, unresolved), ordered[..i])
      invariant j.lastApplied == old(j.lastApplied)
      invariant j.Contents() == Replay(before, p.effects) && Suffers(old(j.script), j.script, true)
    {
      assert ordered[..i + 1][..i] == ordered[..i];
      SweepGrows(r, v, before, Open(v, unresolved), ordered, i + 1);
      ok, p := ApplyOne(r, j, v, before, p, ordered[i]);
      if !ok { return None, a, p.effects; }
    }
    assert ordered[..|ordered|] == ordered;
    var moved := j.SetLastAppliedVersion(v);
    if !moved { return None, a, p.effects; }
    ReplayOne(before, p.effects, Advanced(v));
    return Some(p.results), a, p.effects + [Advanced(v)];
  }
}
