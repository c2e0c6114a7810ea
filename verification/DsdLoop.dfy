/** agent/cmd/sigmad/main.go, `runDSDLoop`: fetch, verify, apply, report. */
module DsdLoop {
  import opened Wrappers
  import opened Dsd
  import opened Journal
  import opened Apply
  import opened Resume
  import opened CrashResume

  datatype Signed = Signed(document: Document, signature: string)

  /** What `GetDSD` returns: an error (of a revoked credential or not), 204, or a document. */
  datatype Fetch = FetchError(revoked: bool) | NoContent | Got(signed: Signed)

  /** One trip round the loop as its surroundings decide it: whether the process was
      started anew before it, what was fetched, how the handlers behave, which journal transactions
      complete, and whether the two status posts get through. */
  datatype Round = Round(restarted: bool, fetch: Fetch, handlers: Registry, journal: seq<bool>, rereported: bool,
      reported: bool)

  /** What the loop lets happen: GC and the handlers run for a document while `after` is
      the applied version; an application completes; a status is posted. */
  datatype Act =
    | Began(signed: Signed, after: Version)
    | Completed(version: Version, results: map<string, OpResult>)
    | Posted(version: Version, results: map<string, OpResult>)

  /** The trust the host has: `Verify` under the pinned key, and its own server id. */
  datatype Trust = Trust(verify: Signed -> bool, serverId: string)

  // ---- safety of a whole run, read off its acts ----

  datatype Mark = Mark(version: Version, results: map<string, OpResult>)

  /** The newest completed version and its results; `start` before any completes. */
  function Newest(start: Mark, acts: seq<Act>): Mark {
    if |acts| == 0 then start
    else match acts[|acts| - 1]
      case Completed(v, results) => Mark(v, results)
      case _ => Newest(start, acts[..|acts| - 1])
  }

  predicate SafeAct(t: Trust, newest: Mark, act: Act) {
    match act
    case Began(signed, after) =>
      && t.verify(signed) && signed.document.serverId == t.serverId
      && after == newest.version && signed.document.version > newest.version
    case Completed(v, _) => v > newest.version
    case Posted(v, results) => newest == Mark(v, results)
  }

  /** GC and handlers run only for verified documents addressed to this host and newer
      than every completed one; completed versions strictly increase; and every status
      posted is of the newest completed version, with exactly the results it returned. */
  predicate Safe(t: Trust, start: Mark, acts: seq<Act>) {
    |acts| == 0 || (Safe(t, start, acts[..|acts| - 1])
        && SafeAct(t, Newest(start, acts[..|acts| - 1]), acts[|acts| - 1]))
  }

  lemma {:induction false} ActsSnoc(t: Trust, start: Mark, acts: seq<Act>, act: Act)
    ensures Safe(t, start, acts + [act]) <==> Safe(t, start, acts) && SafeAct(t, Newest(start, acts), act)
    ensures Newest(start, acts + [act]) == if act.Completed? then Mark(act.version, act.results)
            else Newest(start, acts)
  {
    assert (acts + [act])[..|acts|] == acts;
  }

  lemma {:induction false} ActsAppend(t: Trust, start: Mark, a: seq<Act>, b: seq<Act>)
    requires Safe(t, start, a) && Safe(t, Newest(start, a), b)
    ensures Safe(t, start, a + b) && Newest(start, a + b) == Newest(Newest(start, a), b)
  {
    if |b| == 0 {
      assert a + b == a;
    } else {
      var c := b[..|b| - 1];
      ActsAppend(t, start, a, c);
      assert a + b == (a + c) + [b[|b| - 1]];
      ActsSnoc(t, start, a + c, b[|b| - 1]);
    }
  }

  /** Safety read off two acts of one run: versions completed later are higher, and a
      version completed is never begun again. */
  lemma {:induction false} SafeMeansIncreasing(t: Trust, start: Mark, acts: seq<Act>, i: nat, j: nat)
    requires Safe(t, start, acts) && i < j < |acts| && acts[i].Completed?
    ensures acts[j].Completed? ==> acts[j].version > acts[i].version
    ensures acts[j].Began? ==> acts[j].signed.document.version > acts[i].version
    ensures Newest(start, acts).version >= acts[i].version
  {
    var front := acts[..|acts| - 1];
    if j < |acts| - 1 {
      SafeMeansIncreasing(t, start, front, i, j);
    } else if i < j - 1 {
      SafeMeansIncreasing(t, start, front, i, j - 1);
    }
  }

  // ---- what the journal keeps over a run ----

  /** The rows of every version still to come are those of attempts at its document. */
  ghost predicate Grounded(docOf: Version -> seq<Op>, view: View) {
    forall v: Version :: v > view.applied ==> GroundedFor(docOf, view, v)
  }

  ghost predicate GroundedFor(docOf: Version -> seq<Op>, view: View, v: Version) {
    Closed(ById(docOf(v)), v, view) && Belongs(ById(docOf(v)), v, view)
  }

  /** A verified document addressed to this host is the one its version names. */
  ghost predicate VersionsNameDocuments(t: Trust, docOf: Version -> seq<Op>, rounds: seq<Round>) {
    forall i :: 0 <= i < |rounds| && rounds[i].fetch.Got? ==>
      var s := rounds[i].fetch.signed;
      t.verify(s) && s.document.serverId == t.serverId ==> s.document.ops == docOf(s.document.version)
  }

  lemma {:induction false} OtherVersionsUntouched(g: Graph, v: Version, before: View, es: seq<Effect>)
    requires LawfulRun(g, v, before, es)
    ensures forall s: Slot :: s.version != v ==>
              (s in Replay(before, es).rows <==> s in before.rows) &&
              (s in before.rows ==> Replay(before, es).rows[s] == before.rows[s])
  {
    if |es| != 0 {
      hide Doomed, DepsApplied, AppliedIn;
      OtherVersionsUntouched(g, v, before, es[..|es| - 1]);
    }
  }

  lemma {:induction false} SameRowsSameClosure(g: Graph, v: Version, a: View, b: View)
    requires Closed(g, v, a) && Belongs(g, v, a)
    requires forall s: Slot :: s.version == v ==>
             (s in b.rows <==> s in a.rows) && (s in a.rows ==> b.rows[s] == a.rows[s])
    ensures Closed(g, v, b) && Belongs(g, v, b)
  {
    hide Doomed;
    forall id | AppliedIn(b, v, id) ensures !Doomed(g, id) && DepsApplied(g, v, b, id) {
      assert AppliedIn(a, v, id) && DepsApplied(g, v, a, id);
      forall dep | dep in g[id].dependsOn ensures AppliedIn(b, v, dep) { assert AppliedIn(a, v, dep); }
    }
  }

  /** An attempt, complete or cut, leaves every version still to come grounded. */
  lemma {:induction false} AttemptKeepsGrounded(docOf: Version -> seq<Op>, before: View, after: View, doc: Document,
                                                a: Attempt, es: seq<Effect>)
    requires Grounded(docOf, before) && Keyed(before.rows) && before.applied < doc.version
             && doc.ops == docOf(doc.version)
    requires At(doc.ops, a) && Reached(a, doc.version, before, es)
    requires after.rows == Replay(before, es).rows && after.applied >= before.applied
    ensures Grounded(docOf, after)
    ensures forall s: Slot :: s.version != doc.version ==>
              (s in after.rows <==> s in before.rows) && (s in before.rows ==> after.rows[s] == before.rows[s])
  {
    hide Closed, Belongs, LawfulRun, Trace, Replay, TopoSpec, Good, Keyed;
    var v := doc.version;
    var g := ById(docOf(v));
    assert GroundedFor(docOf, before, v);
    PassGood(doc.ops, v, before, a);
    LawfulPrefix(g, v, before, Trace(a, v, before), |es|);
    assert Trace(a, v, before)[..|es|] == es;
    LawfulRunKeeps(g, v, before, es);
    BelongsKept(g, v, before, es);
    OtherVersionsUntouched(g, v, before, es);
    forall w: Version | w > after.applied ensures GroundedFor(docOf, after, w) {
      assert GroundedFor(docOf, before, w);
      if w == v {
        SameRowsSameClosure(g, v, Replay(before, es), after);
      } else {
        SameRowsSameClosure(ById(docOf(w)), w, before, after);
      }
    }
  }

  // ---- the loop ----

  predicate FirstComplete(script: seq<bool>, n: nat) {
    forall i :: 0 <= i < n && i < |script| ==> script[i]
  }

  /** What is left of the script after a startup that finds a report outstanding: it ends
      at the first of its three transactions that fails. */
  function AfterStartup(script: seq<bool>): seq<bool> {
    var n := if |script| > 0 && !script[0] then 1 else if |script| > 1 && !script[1] then 2 else 3;
    if n <= |script| then script[n..] else []
  }

  /** The report watermark is set to the applied version at startup, exactly if all its
      transactions complete: what was applied before is then treated as reported, whether
      or not its status ever arrived. */
  method Startup(j: Journal)
    requires j.Valid() && j.lastReported <= j.lastApplied
    modifies j`script, j`lastReported
    ensures j.lastReported == if FirstComplete(old(j.script), 3) then j.lastApplied else old(j.lastReported)
    ensures false !in old(j.script) ==> j.lastReported == j.lastApplied
    ensures old(j.lastReported) < j.lastApplied ==> j.script == AfterStartup(old(j.script))
    ensures Suffers(old(j.script), j.script, true)
  {
    var reported := j.LastReportedVersion();
    if reported.Some? {
      var applied := j.LastAppliedVersion();
      if applied.Some? && reported.value < applied.value {
        var _ := j.SetLastReportedVersion(applied.value);
      }
    }
  }

  /** Posts the newest applied version's status again if its report is outstanding:
      exactly when the watermark is behind and the version has results to report. */
  method ReReport(j: Journal, after: Version, delivered: bool) returns (ghost acts: seq<Act>)
    requires j.Valid() && after == j.lastApplied && j.lastReported <= after
    modifies j`script, j`lastReported
    ensures j.lastReported == old(j.lastReported) || (delivered && j.lastReported == after && acts != [])
    ensures acts == [] || acts == [Posted(after, OfVersion(j.table, after))]
    ensures Suffers(old(j.script), j.script, true)
    ensures acts != [] <==>
            old(j.lastReported) < after && FirstComplete(old(j.script), 2) && OfVersion(j.table, after) != map[]
    ensures false !in old(j.script) ==>
            (acts != [] <==> old(j.lastReported) < after && OfVersion(j.table, after) != map[])
    ensures false !in old(j.script) && acts != [] && delivered ==> j.lastReported == after
  {
    hide OfVersion, Stores, InOrder;
    acts := [];
    var reported := j.LastReportedVersion();
    if reported.Some? && reported.value < after {
      var res := j.ResultsForVersion(after);
      if res.Some? && |res.value| > 0 {
        acts := [Posted(after, res.value)];
        if delivered {
          var _ := j.SetLastReportedVersion(after);
        }
      }
    }
  }

  /** A status that was never delivered is forgotten by a restart exactly if the three
      transactions of the startup complete. Otherwise it is still outstanding, and sent
      again as soon as the journal can be read. */
  method RestartForgetsReport(j: Journal, delivered: bool) returns (ghost outstanding: bool, ghost acts: seq<Act>)
    requires j.Valid() && j.lastReported < j.lastApplied
    modifies j`script, j`lastReported
    ensures outstanding <==> !FirstComplete(old(j.script), 3)
    ensures !outstanding ==> acts == [] && j.lastReported == j.lastApplied
    ensures acts != [] <==>
            outstanding && FirstComplete(AfterStartup(old(j.script)), 2) && OfVersion(j.table, j.lastApplied) != map[]
    ensures acts != [] ==> acts == [Posted(j.lastApplied, OfVersion(j.table, j.lastApplied))]
  {
    hide OfVersion;
    Startup(j);
    outstanding := j.lastReported < j.lastApplied;
    acts := ReReport(j, j.lastApplied, delivered);
  }

  /** Applies one fetched document if it passes the three checks, and reports it. */
  method Take(j: Journal, t: Trust, signed: Signed, after: Version, handlers: Registry, reported: bool,
              ghost docOf: Version -> seq<Op>)
    returns (applied: Option<bool>, ghost acts: seq<Act>, ghost newest: Mark)
    requires j.Valid() && after == j.lastApplied && j.lastReported <= j.lastApplied && Grounded(docOf, j.Contents())
    requires t.verify(signed) && signed.document.serverId == t.serverId ==>
             signed.document.ops == docOf(signed.document.version)
    modifies j
    ensures j.Valid() && j.lastReported <= j.lastApplied && Grounded(docOf, j.Contents())
    ensures j.lastApplied >= old(j.lastApplied)
    ensures newest == Mark(j.lastApplied, OfVersion(j.table, j.lastApplied))
    ensures var start := Mark(after, OfVersion(old(j.table), after));
            Safe(t, start, acts) && Newest(start, acts) == newest
    // It is begun exactly if it verifies, is addressed to this host and is newer.
    ensures applied.Some? <==>
            t.verify(signed) && signed.document.serverId == t.serverId && signed.document.version > after
    ensures acts == if applied.None? then []
                    else if applied == Some(false) then [Began(signed, after)]
                    else [Began(signed, after), Completed(newest.version, newest.results),
                          Posted(newest.version, newest.results)]
    // It completes if the journal works throughout; then it is the applied version, and the
    // reported one exactly if its status got through.
    ensures applied.Some? && false !in old(j.script) ==> applied == Some(true)
    ensures applied == Some(true) ==> j.lastApplied == signed.document.version
    ensures applied != Some(true) ==> j.lastApplied == after && j.lastReported == old(j.lastReported)
    ensures applied == Some(true) && false !in old(j.script) ==>
              j.lastReported == if reported then signed.document.version else old(j.lastReported)
    ensures j.lastReported == old(j.lastReported) || (reported && j.lastReported == signed.document.version)
  {
    hide Grounded, Stores, InOrder, OfVersion, Safe, Newest;
    ghost var start := Mark(after, OfVersion(j.table, after));
    SafeFromNothing(t, start);
    acts, newest, applied := [], start, None;
    if !t.verify(signed) { return; }
    if signed.document.serverId != t.serverId { return; }
    if signed.document.version <= after { return; }
    var results := ApplyAndKeep(j, signed.document, handlers, docOf);
    if results.Some? { newest := Mark(signed.document.version, results.value); }
    TakenIsSafe(t, start, signed, newest);
    if results.None? {
      acts, applied := [Began(signed, after)], Some(false);
      return;
    }
    acts := [Began(signed, after), Completed(newest.version, newest.results), Posted(newest.version, newest.results)];
    GroundedIgnoresReport(docOf, j.Contents(), newest.version);
    if reported {
      var _ := j.SetLastReportedVersion(signed.document.version);
    }
    applied := Some(true);
  }

  lemma {:induction false} TakenIsSafe(t: Trust, start: Mark, signed: Signed, newest: Mark)
    requires t.verify(signed) && signed.document.serverId == t.serverId && signed.document.version > start.version
    ensures Safe(t, start, [Began(signed, start.version)]) && Newest(start, [Began(signed, start.version)]) == start
    ensures newest.version == signed.document.version ==>
              var acts := [Began(signed, start.version), Completed(newest.version, newest.results),
                           Posted(newest.version, newest.results)];
              Safe(t, start, acts) && Newest(start, acts) == newest
  {
    var one := [Began(signed, start.version)];
    var two := one + [Completed(newest.version, newest.results)];
    ActsSnoc(t, start, [], one[0]);
    assert [] + [one[0]] == one;
    ActsSnoc(t, start, one, two[1]);
    ActsSnoc(t, start, two, Posted(newest.version, newest.results));
  }

  /** Apply, and what it leaves for the loop: the results are those of the newest version then. */
  method ApplyAndKeep(j: Journal, doc: Document, handlers: Registry, ghost docOf: Version -> seq<Op>)
    returns (results: Option<map<string, OpResult>>)
    requires j.Valid() && doc.version > j.lastApplied && Grounded(docOf, j.Contents()) && doc.ops == docOf(doc.version)
    modifies j`script, j`rows, j`table, j`lastApplied
    ensures j.Valid() && Grounded(docOf, j.Contents()) && Suffers(old(j.script), j.script, results.Some?)
    ensures results.Some? ==> j.lastApplied == doc.version && OfVersion(j.table, doc.version) == results.value
    ensures results.None? ==>
              j.lastApplied == old(j.lastApplied)
              && OfVersion(j.table, j.lastApplied) == OfVersion(old(j.table), j.lastApplied)
  {
    hide Grounded, Reached, Replay, Trace, FullPass, TopoSpec, Stores, InOrder, Keyed, Closed, Belongs, OfVersion;
    ghost var before := j.Contents();
    StoresKeyed(j.rows, j.table);
    ghost var a, es;
    results, a, es := Apply.Apply(handlers, j, doc);
    AttemptKeepsGrounded(docOf, before, j.Contents(), doc, a, es);
    if results.None? {
      SameVersion(before.rows, j.table, j.lastApplied);
      return;
    }
    assert GroundedFor(docOf, before, doc.version) by { GroundedAt(docOf, before, doc.version); }
    JournalHoldsTheResults(doc.ops, doc.version, before, a);
  }

  lemma {:induction false} SameVersion(t: map<Slot, OpResult>, u: map<Slot, OpResult>, v: Version)
    requires forall s: Slot :: s.version == v ==> (s in u <==> s in t) && (s in t ==> u[s] == t[s])
    ensures OfVersion(u, v) == OfVersion(t, v)
  {
  }

  lemma {:induction false} GroundedAt(docOf: Version -> seq<Op>, view: View, v: Version)
    requires Grounded(docOf, view) && v > view.applied
    ensures GroundedFor(docOf, view, v)
  {
  }

  lemma {:induction false} GroundedIgnoresReport(docOf: Version -> seq<Op>, view: View, v: Version)
    requires Grounded(docOf, view)
    ensures Grounded(docOf, view.(reported := v))
  {
    forall w: Version | w > view.applied ensures GroundedFor(docOf, view.(reported := v), w) {
      assert GroundedFor(docOf, view, w);
      SameRowsSameClosure(ById(docOf(w)), w, view, view.(reported := v));
    }
  }

  /** The next transaction completes. */
  predicate Readable(script: seq<bool>) {
    script == [] || script[0]
  }

  /** The waits there can be, in seconds. */
  predicate Wait(b: nat) {
    b == 1 || b == 2 || b == 4 || b == 8 || b == 16 || b == 32
  }

  /** Doubled while under 30. */
  function Backoff(b: nat): (d: nat)
    ensures Wait(b) ==> Wait(d) && d == if b == 32 then 32 else b + b
  {
    if b < 30 then 2 * b else b
  }

  lemma {:induction false} RereportBeginsNothing(pre: seq<Act>, more: seq<Act>)
    requires forall act :: act in pre ==> act.Posted?
    ensures forall s, w :: Began(s, w) in pre + more <==> Began(s, w) in more
    ensures forall act :: act in more ==> act in pre + more
  {
  }

  /** The body of the loop. `running` is false once it has returned; `begun` is the document
      that was begun, if any. */
  method OneRound(j: Journal, t: Trust, round: Round, backoff: nat, applyBackoff: nat, ghost docOf: Version -> seq<Op>)
    returns (running: bool, backoff': nat, applyBackoff': nat, ghost acts: seq<Act>, ghost begun: Option<Signed>)
    requires j.Valid() && j.lastReported <= j.lastApplied && Grounded(docOf, j.Contents())
    requires VersionsNameDocuments(t, docOf, [round])
    requires Wait(backoff) && Wait(applyBackoff)
    modifies j
    ensures j.Valid() && j.lastReported <= j.lastApplied && Grounded(docOf, j.Contents())
    ensures var start := Mark(old(j.lastApplied), OfVersion(old(j.table), old(j.lastApplied)));
            && Safe(t, start, acts)
            && Newest(start, acts) == Mark(j.lastApplied, OfVersion(j.table, j.lastApplied))
    // The loop ends here exactly if the journal cannot be read or the credential is revoked.
    ensures running <==> Readable(old(j.script)) && round.fetch != FetchError(true)
    // A document is begun exactly if it was fetched, verifies, is addressed to this host and is newer.
    ensures forall s :: begun == Some(s) <==>
              Readable(old(j.script)) && round.fetch == Got(s)
              && t.verify(s) && s.document.serverId == t.serverId && s.document.version > old(j.lastApplied)
    ensures forall s, after :: Began(s, after) in acts <==> begun == Some(s) && after == old(j.lastApplied)
    // What completes is that document; it does if the journal works throughout, and is then
    // reported exactly if its status gets through.
    ensures begun.None? ==> j.lastApplied == old(j.lastApplied)
    ensures begun.Some? ==> j.lastApplied in {old(j.lastApplied), begun.value.document.version}
    ensures begun.Some? && false !in old(j.script) ==>
              j.lastApplied == begun.value.document.version && (j.lastReported == j.lastApplied <==> round.reported)
    ensures j.lastApplied > old(j.lastApplied) ==>
              Completed(j.lastApplied, OfVersion(j.table, j.lastApplied)) in acts
              && Posted(j.lastApplied, OfVersion(j.table, j.lastApplied)) in acts
    // Waits double up to 32 seconds and start again after a success.
    ensures Wait(backoff') && Wait(applyBackoff')
    ensures Readable(old(j.script)) ==>
              backoff' == if !round.fetch.FetchError? then 1
                          else if round.fetch.revoked then backoff else Backoff(backoff)
    ensures applyBackoff' == if begun.None? then applyBackoff
                             else if j.lastApplied > old(j.lastApplied) then 1 else Backoff(applyBackoff)
  {
    hide Grounded, Stores, InOrder, OfVersion, Safe, Newest;
    ghost var start := Mark(j.lastApplied, OfVersion(j.table, j.lastApplied));
    running, backoff', applyBackoff', begun := true, backoff, applyBackoff, None;
    var after;
    after, acts := ReadAndReReport(j, t, round.rereported, docOf);
    if after.None? {
      running := false;
      return;
    }
    match round.fetch
    case FetchError(revoked) =>
      if revoked { running := false; } else { backoff' := Backoff(backoff); }
    case NoContent =>
      backoff' := 1;
    case Got(signed) =>
      backoff' := 1;
      ghost var more;
      assert [round][0].fetch.Got?;
      applyBackoff', more, begun := TakeAndWait(j, t, signed, after.value, round, applyBackoff, docOf);
      ActsAppend(t, start, acts, more);
      RereportBeginsNothing(acts, more);
      acts := acts + more;
  }

  /** The start of a round: the applied version, and the outstanding report. */
  method ReadAndReReport(j: Journal, t: Trust, delivered: bool, ghost docOf: Version -> seq<Op>)
    returns (after: Option<Version>, ghost acts: seq<Act>)
    requires j.Valid() && j.lastReported <= j.lastApplied && Grounded(docOf, j.Contents())
    modifies j`script, j`lastReported
    ensures j.lastReported <= j.lastApplied && Grounded(docOf, j.Contents())
    ensures Suffers(old(j.script), j.script, after.Some?)
    ensures after == if Readable(old(j.script)) then Some(j.lastApplied) else None
    ensures forall act :: act in acts ==> act.Posted?
    ensures var start := Mark(j.lastApplied, OfVersion(j.table, j.lastApplied));
            Safe(t, start, acts) && Newest(start, acts) == start
  {
    hide Grounded, Stores, InOrder, OfVersion, Safe, Newest;
    ghost var start, view := Mark(j.lastApplied, OfVersion(j.table, j.lastApplied)), j.Contents();
    SafeFromNothing(t, start);
    acts := [];
    after := j.LastAppliedVersion();
    if after.None? { return; }
    acts := ReReport(j, after.value, delivered);
    GroundedIgnoresReport(docOf, view, j.lastReported);
    if acts != [] {
      ActsSnoc(t, start, [], acts[0]);
      assert [] + [acts[0]] == acts;
    }
  }

  /** What the loop does with a fetched document, and how long it waits after a failed attempt at it. */
  method TakeAndWait(j: Journal, t: Trust, signed: Signed, after: Version, round: Round, applyBackoff: nat,
                     ghost docOf: Version -> seq<Op>)
    returns (applyBackoff': nat, ghost acts: seq<Act>, ghost begun: Option<Signed>)
    requires j.Valid() && after == j.lastApplied && j.lastReported <= j.lastApplied && Grounded(docOf, j.Contents())
    requires t.verify(signed) && signed.document.serverId == t.serverId ==>
             signed.document.ops == docOf(signed.document.version)
    requires Wait(applyBackoff)
    modifies j
    ensures j.Valid() && j.lastReported <= j.lastApplied && Grounded(docOf, j.Contents())
    ensures var start := Mark(after, OfVersion(old(j.table), after));
            && Safe(t, start, acts)
            && Newest(start, acts) == Mark(j.lastApplied, OfVersion(j.table, j.lastApplied))
    ensures begun == if t.verify(signed) && signed.document.serverId == t.serverId && signed.document.version > after
                     then Some(signed) else None
    ensures forall s, w :: Began(s, w) in acts <==> begun == Some(s) && w == after
    ensures begun.None? ==> j.lastApplied == after && j.lastReported == old(j.lastReported)
    ensures begun.Some? ==> j.lastApplied in {after, signed.document.version}
    ensures begun.Some? && false !in old(j.script) ==>
              j.lastApplied == signed.document.version && (j.lastReported == j.lastApplied <==> round.reported)
    ensures j.lastApplied > after ==>
              Completed(j.lastApplied, OfVersion(j.table, j.lastApplied)) in acts
              && Posted(j.lastApplied, OfVersion(j.table, j.lastApplied)) in acts
    ensures Wait(applyBackoff')
    ensures applyBackoff' == if begun.None? then applyBackoff else if j.lastApplied > after then 1
                             else Backoff(applyBackoff)
  {
    hide Grounded, Stores, InOrder, OfVersion, Safe, Newest;
    ghost var newest;
    var applied;
    applied, acts, newest := Take(j, t, signed, after, round.handlers, round.reported, docOf);
    begun := if applied.Some? then Some(signed) else None;
    if applied.None? {
      applyBackoff' := applyBackoff;
    } else if applied.value {
      assert applied == Some(true);
      applyBackoff' := 1;
    } else {
      assert applied == Some(false);
      applyBackoff' := Backoff(applyBackoff);
    }
  }

  /** One trip of the loop as it went: whether the loop was running, the journal script left
      to its body, the applied version before and after it and the reported one after it, the
      document it began, and what it let happen. */
  datatype Trip = Trip(running: bool, script: seq<bool>, after: Version, begun: Option<Signed>, next: Version,
                       reported: Version, acts: seq<Act>)

  /** What one trip does with what is fetched. */
  ghost predicate Fits(t: Trust, round: Round, trip: Trip) {
    && (false !in round.journal ==> false !in trip.script)
    && (forall s :: trip.begun == Some(s) <==>
          trip.running && Readable(trip.script) && round.fetch == Got(s)
          && t.verify(s) && s.document.serverId == t.serverId && s.document.version > trip.after)
    && (forall s, w :: Began(s, w) in trip.acts <==> trip.begun == Some(s) && w == trip.after)
    && (trip.begun.None? ==> trip.next == trip.after)
    && (trip.begun.Some? ==> trip.next == trip.after || trip.next == trip.begun.value.document.version)
    && (trip.begun.Some? && false !in round.journal ==>
          trip.next == trip.begun.value.document.version && (trip.reported == trip.next <==> round.reported))
  }

  /** How the trips hang together. */
  ghost predicate Follows(rounds: seq<Round>, trips: seq<Trip>, i: nat)
    requires i < |trips| <= |rounds|
  {
    && (trips[i].running <==>
        i == 0 || rounds[i].restarted
        || (trips[i - 1].running && Readable(trips[i - 1].script) && rounds[i - 1].fetch != FetchError(true)))
    && (i > 0 && !rounds[i].restarted ==> trips[i].script == rounds[i].journal)
    && (i > 0 ==> trips[i].after == trips[i - 1].next)
  }

  function AllActs(trips: seq<Trip>): seq<Act> {
    if trips == [] then [] else AllActs(trips[..|trips| - 1]) + trips[|trips| - 1].acts
  }

  lemma {:induction false} ActsMore(trips: seq<Trip>, trip: Trip)
    ensures AllActs(trips + [trip]) == AllActs(trips) + trip.acts
  {
    assert (trips + [trip])[..|trips|] == trips;
  }

  /** What the trips of the first rounds come to. */
  ghost predicate Logged(t: Trust, rounds: seq<Round>, trips: seq<Trip>, first: Version, now: Version) {
    && |trips| <= |rounds|
    && (forall k :: 0 <= k < |trips| ==> Fits(t, rounds[k], trips[k]) && Follows(rounds, trips, k))
    && if trips == [] then now == first else trips[0].after == first && trips[|trips| - 1].next == now
  }

  /** Whether the loop is still running after its last trip. */
  ghost predicate Lives(rounds: seq<Round>, trips: seq<Trip>)
    requires |trips| <= |rounds|
  {
    trips != []
    && var k := |trips| - 1;
       trips[k].running && Readable(trips[k].script) && rounds[k].fetch != FetchError(true)
  }

  lemma {:induction false} LoggedMore(t: Trust, rounds: seq<Round>, trips: seq<Trip>, first: Version, now: Version,
                                      trip: Trip)
    requires Logged(t, rounds, trips, first, now) && |trips| < |rounds| && trip.after == now
    requires Fits(t, rounds[|trips|], trip)
    requires var anew := |trips| == 0 || rounds[|trips|].restarted;
             trip.running == (anew || Lives(rounds, trips)) && (!anew ==> trip.script == rounds[|trips|].journal)
    ensures Logged(t, rounds, trips + [trip], first, trip.next)
  {
    hide Fits;
    var more := trips + [trip];
    forall k | 0 <= k < |more| ensures Fits(t, rounds[k], more[k]) && Follows(rounds, more, k) {
      if k < |trips| {
        assert Follows(rounds, trips, k);
        assert more[k] == trips[k] && (k > 0 ==> more[k - 1] == trips[k - 1]);
      }
    }
  }

  lemma {:induction false} LoggedReads(t: Trust, rounds: seq<Round>, trips: seq<Trip>, first: Version, now: Version,
                                       i: nat)
    requires Logged(t, rounds, trips, first, now) && i < |trips|
    ensures Fits(t, rounds[i], trips[i]) && Follows(rounds, trips, i)
    ensures false !in rounds[i].journal ==> Readable(trips[i].script)
  {
    assert Fits(t, rounds[i], trips[i]) && Follows(rounds, trips, i);
    if trips[i].script != [] { assert trips[i].script[0] in trips[i].script; }
  }

  /** The rounds one by one. */
  method Rounds(j: Journal, t: Trust, rounds: seq<Round>, ghost docOf: Version -> seq<Op>)
    returns (ghost acts: seq<Act>, ghost trips: seq<Trip>)
    requires j.Valid() && j.lastReported <= j.lastApplied && Grounded(docOf, j.Contents())
    requires VersionsNameDocuments(t, docOf, rounds)
    modifies j
    ensures j.Valid() && j.lastReported <= j.lastApplied && Grounded(docOf, j.Contents())
    ensures var start := Mark(old(j.lastApplied), OfVersion(old(j.table), old(j.lastApplied)));
            && Safe(t, start, acts)
            && Newest(start, acts) == Mark(j.lastApplied, OfVersion(j.table, j.lastApplied))
    ensures j.lastApplied >= old(j.lastApplied)
    ensures |trips| == |rounds| && acts == AllActs(trips)
    ensures Logged(t, rounds, trips, old(j.lastApplied), j.lastApplied)
  {
    hide Grounded, Stores, InOrder, OfVersion, Safe, Newest, AllActs, Wait, Fits, Logged;
    hide VersionsNameDocuments, Readable;
    ghost var start := Mark(j.lastApplied, OfVersion(j.table, j.lastApplied));
    SafeFromNothing(t, start);
    NoTrips(t, rounds, j.lastApplied);
    acts, trips := [], [];
    var running, backoff, applyBackoff := false, 1, 1;
    for i := 0 to |rounds|
      invariant j.Valid() && j.lastReported <= j.lastApplied && Grounded(docOf, j.Contents())
      invariant Safe(t, start, acts) && Newest(start, acts) == Mark(j.lastApplied, OfVersion(j.table, j.lastApplied))
      invariant j.lastApplied >= old(j.lastApplied) && Wait(backoff) && Wait(applyBackoff)
      invariant |trips| == i && acts == AllActs(trips)
      invariant Logged(t, rounds, trips, old(j.lastApplied), j.lastApplied) && running == Lives(rounds, trips)
    {
      ghost var trip;
      OneNamesDocuments(t, docOf, rounds, i);
      ghost var was := j.lastApplied;
      running, backoff, applyBackoff, trip :=
        OneTrip(j, t, rounds[i], i == 0 || rounds[i].restarted, running, backoff, applyBackoff, docOf);
      ActsAppend(t, start, acts, trip.acts);
      ActsMore(trips, trip);
      LoggedMore(t, rounds, trips, old(j.lastApplied), was, trip);
      acts, trips := acts + trip.acts, trips + [trip];
    }
  }

  /** The loop over any number of rounds, with restarts anywhere. `acts` is all it let
      happen; whatever is fetched and wherever the journal fails, the run is safe, and
      the report watermark never passes the applied one. While it runs, every fetched
      document that passes the three checks is begun, and none else. */
  method RunDSDLoop(j: Journal, t: Trust, rounds: seq<Round>, ghost docOf: Version -> seq<Op>)
    returns (ghost acts: seq<Act>, ghost trips: seq<Trip>)
    requires j.Valid() && j.lastReported <= j.lastApplied && Grounded(docOf, j.Contents())
    requires VersionsNameDocuments(t, docOf, rounds)
    modifies j
    ensures j.Valid() && j.lastReported <= j.lastApplied && Grounded(docOf, j.Contents())
    ensures var start := Mark(old(j.lastApplied), OfVersion(old(j.table), old(j.lastApplied)));
            && Safe(t, start, acts)
            && Newest(start, acts) == Mark(j.lastApplied, OfVersion(j.table, j.lastApplied))
    ensures j.lastApplied >= old(j.lastApplied)
    ensures |trips| == |rounds| && acts == AllActs(trips)
    // It runs from each start until the journal cannot be read or the credential is revoked.
    ensures forall i :: 0 <= i < |rounds| ==>
              (trips[i].running <==>
               i == 0 || rounds[i].restarted
               || (trips[i - 1].running && Readable(trips[i - 1].script) && rounds[i - 1].fetch != FetchError(true)))
    // A fetched document is begun exactly under the three checks,
    ensures forall i, s, after :: 0 <= i < |rounds| ==>
              (Began(s, after) in trips[i].acts <==>
               trips[i].running && Readable(trips[i].script) && rounds[i].fetch == Got(s) && t.verify(s)
               && s.document.serverId == t.serverId && s.document.version > after && after == trips[i].after)
    // and applied if the journal works throughout, then reported if its status gets through.
    ensures forall i, s, after ::
              0 <= i < |rounds| && Began(s, after) in trips[i].acts && false !in rounds[i].journal ==>
                trips[i].next == s.document.version && (trips[i].reported == trips[i].next <==> rounds[i].reported)
    ensures forall i :: 0 <= i < |rounds| && false !in rounds[i].journal ==> Readable(trips[i].script)
    ensures |rounds| > 0 ==> trips[0].after == old(j.lastApplied) && trips[|rounds| - 1].next == j.lastApplied
    ensures forall i :: 0 < i < |rounds| ==> trips[i].after == trips[i - 1].next
  {
    hide *;
    ghost var first := j.lastApplied;
    acts, trips := Rounds(j, t, rounds, docOf);
    TripsSay(t, rounds, trips, first, j.lastApplied);
  }

  lemma {:induction false} OneNamesDocuments(t: Trust, docOf: Version -> seq<Op>, rounds: seq<Round>, i: nat)
    requires VersionsNameDocuments(t, docOf, rounds) && i < |rounds|
    ensures VersionsNameDocuments(t, docOf, [rounds[i]])
  {
  }

  lemma {:induction false} NoTrips(t: Trust, rounds: seq<Round>, v: Version)
    ensures AllActs([]) == [] && Wait(1) && Logged(t, rounds, [], v, v)
  {
  }

  lemma {:induction false} TripsSay(t: Trust, rounds: seq<Round>, trips: seq<Trip>, first: Version, now: Version)
    requires Logged(t, rounds, trips, first, now) && |trips| == |rounds|
    ensures forall i :: 0 <= i < |rounds| ==>
              (trips[i].running <==>
               i == 0 || rounds[i].restarted
               || (trips[i - 1].running && Readable(trips[i - 1].script) && rounds[i - 1].fetch != FetchError(true)))
    ensures forall i, s, after :: 0 <= i < |rounds| ==>
              (Began(s, after) in trips[i].acts <==>
               trips[i].running && Readable(trips[i].script) && rounds[i].fetch == Got(s) && t.verify(s)
               && s.document.serverId == t.serverId && s.document.version > after && after == trips[i].after)
    ensures forall i, s, after ::
              0 <= i < |rounds| && Began(s, after) in trips[i].acts && false !in rounds[i].journal ==>
                trips[i].next == s.document.version && (trips[i].reported == trips[i].next <==> rounds[i].reported)
    ensures forall i :: 0 <= i < |rounds| && false !in rounds[i].journal ==> Readable(trips[i].script)
    ensures |rounds| > 0 ==> trips[0].after == first && trips[|rounds| - 1].next == now
    ensures forall i :: 0 < i < |rounds| ==> trips[i].after == trips[i - 1].next
  {
    hide Logged;
    if trips != [] { LoggedEnds(t, rounds, trips, first, now); }
    forall i | 0 <= i < |rounds|
      ensures Fits(t, rounds[i], trips[i]) && Follows(rounds, trips, i)
      ensures false !in rounds[i].journal ==> Readable(trips[i].script)
    {
      LoggedReads(t, rounds, trips, first, now, i);
    }
  }

  lemma {:induction false} LoggedEnds(t: Trust, rounds: seq<Round>, trips: seq<Trip>, first: Version, now: Version)
    requires Logged(t, rounds, trips, first, now) && trips != []
    ensures trips[0].after == first && trips[|trips| - 1].next == now
  {
  }

  /** One round of the loop, after a start if it begins anew. */
  method OneTrip(j: Journal, t: Trust, round: Round, anew: bool, ran: bool, backoff: nat, applyBackoff: nat,
                 ghost docOf: Version -> seq<Op>)
    returns (running: bool, backoff': nat, applyBackoff': nat, ghost trip: Trip)
    requires j.Valid() && j.lastReported <= j.lastApplied && Grounded(docOf, j.Contents())
    requires VersionsNameDocuments(t, docOf, [round]) && Wait(backoff) && Wait(applyBackoff)
    modifies j
    ensures j.Valid() && j.lastReported <= j.lastApplied && Grounded(docOf, j.Contents())
    ensures var start := Mark(old(j.lastApplied), OfVersion(old(j.table), old(j.lastApplied)));
            && Safe(t, start, trip.acts)
            && Newest(start, trip.acts) == Mark(j.lastApplied, OfVersion(j.table, j.lastApplied))
    ensures j.lastApplied >= old(j.lastApplied) && Wait(backoff') && Wait(applyBackoff')
    ensures trip.running == (anew || ran) && (!anew ==> trip.script == round.journal)
    ensures trip.after == old(j.lastApplied) && trip.next == j.lastApplied && trip.reported == j.lastReported
    ensures Fits(t, round, trip)
    ensures running <==> trip.running && Readable(trip.script) && round.fetch != FetchError(true)
  {
    hide Grounded, Stores, InOrder, OfVersion, Safe, Newest, Wait;
    ghost var start, was := Mark(j.lastApplied, OfVersion(j.table, j.lastApplied)), j.Contents();
    SafeFromNothing(t, start);
    running, backoff', applyBackoff' := ran, backoff, applyBackoff;
    j.script := round.journal;
    if anew {
      Startup(j);
      GroundedIgnoresReport(docOf, was, j.lastReported);
      running, backoff', applyBackoff' := true, 1, 1;
      assert Wait(1) by { NoTrips(t, [], j.lastApplied); }
    }
    trip := Trip(running, j.script, j.lastApplied, None, j.lastApplied, j.lastReported, []);
    if running {
      ghost var acts, begun;
      running, backoff', applyBackoff', acts, begun := OneRound(j, t, round, backoff', applyBackoff', docOf);
      trip := trip.(begun := begun, next := j.lastApplied, reported := j.lastReported, acts := acts);
    }
  }

  lemma {:induction false} SafeFromNothing(t: Trust, start: Mark)
    ensures Safe(t, start, []) && Newest(start, []) == start
  {
  }
}
