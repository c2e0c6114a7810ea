/** agent/internal/backup: choosing what a point-in-time restore replays. */
module Pitr {
  import opened Wrappers
  import Wal

  /** A row of `restic snapshots`; None is a time that does not parse. */
  datatype Row = Row(id: string, time: Option<int>)

  datatype Meta = Meta(id: string, time: int)

  /** Why a restore is refused, in the order the checks are made. */
  datatype Failure = ListBase | NoBase | RestoreBase | BaseMissing | ListWal | RestoreWal | NotSpanned

  datatype Outcome = Refused(why: Failure) | Staged(base: Meta, wals: seq<Meta>)

  predicate Oldest(s: seq<Meta>) {
    forall i, j :: 0 <= i < j < |s| ==> s[i].time <= s[j].time
  }

  /** The rows that have an id and a time. */
  function Metas(rows: seq<Row>): seq<Meta> {
    if rows == [] then []
    else
      var r := rows[|rows| - 1];
      Metas(rows[..|rows| - 1]) + if r.id == "" || r.time.None? then [] else [Meta(r.id, r.time.value)]
  }

  lemma {:induction false} MetasAreRows(rows: seq<Row>, m: Meta)
    ensures m in Metas(rows) <==> m.id != "" && Row(m.id, Some(m.time)) in rows
  {
    if rows != [] {
      MetasAreRows(rows[..|rows| - 1], m);
      assert rows == rows[..|rows| - 1] + [rows[|rows| - 1]];
    }
  }

  function Insert(s: seq<Meta>, m: Meta): seq<Meta> {
    if s == [] || s[|s| - 1].time <= m.time then s + [m] else Insert(s[..|s| - 1], m) + [s[|s| - 1]]
  }

  lemma {:induction false} OldestSnoc(s: seq<Meta>, m: Meta)
    requires Oldest(s) && forall x :: x in s ==> x.time <= m.time
    ensures Oldest(s + [m])
  {
  }

  lemma {:induction false} OldestInit(s: seq<Meta>)
    requires Oldest(s) && s != []
    ensures Oldest(s[..|s| - 1]) && s == s[..|s| - 1] + [s[|s| - 1]]
    ensures forall x :: x in s ==> x.time <= s[|s| - 1].time
  {
  }

  lemma {:induction false} CountSnoc(s: seq<Meta>, m: Meta)
    ensures multiset(s + [m]) == multiset(s) + multiset{m}
    ensures forall x :: x in s <==> x in multiset(s)
  {
  }

  lemma {:induction false} InsertKeeps(s: seq<Meta>, m: Meta)
    requires Oldest(s)
    ensures Oldest(Insert(s, m)) && multiset(Insert(s, m)) == multiset(s) + multiset{m}
  {
    hide Oldest;
    CountSnoc(s, m);
    if s != [] {
      var init, last := s[..|s| - 1], s[|s| - 1];
      OldestInit(s);
      if last.time <= m.time {
        OldestSnoc(s, m);
      } else {
        InsertKeeps(init, m);
        var t := Insert(init, m);
        CountSnoc(init, last);
        CountSnoc(t, last);
        forall x | x in t ensures x.time <= last.time { assert x in multiset(t); }
        OldestSnoc(t, last);
      }
    } else {
      OldestSnoc(s, m);
    }
  }

  lemma {:induction false} MetasSnoc(rows: seq<Row>, i: nat)
    requires i < |rows|
    ensures Metas(rows[..i + 1]) ==
              Metas(rows[..i]) + if rows[i].id == "" || rows[i].time.None? then []
                  else [Meta(rows[i].id, rows[i].time.value)]
  {
    assert rows[..i + 1][..i] == rows[..i];
  }

  /** resticSnapshotsByTag. The sort is not stable: of snapshots with one time any may come first. */
  method SnapshotsByTag(rows: seq<Row>) returns (metas: seq<Meta>)
    ensures Oldest(metas) && multiset(metas) == multiset(Metas(rows))
  {
    metas := [];
    assert Oldest([]) && Metas(rows[..0]) == [];
    hide Oldest, Metas, Insert;
    for i := 0 to |rows|
      invariant Oldest(metas) && multiset(metas) == multiset(Metas(rows[..i]))
    {
      MetasSnoc(rows, i);
      if rows[i].id != "" && rows[i].time.Some? {
        InsertKeeps(metas, Meta(rows[i].id, rows[i].time.value));
        metas := Insert(metas, Meta(rows[i].id, rows[i].time.value));
      }
    }
    assert rows[..|rows|] == rows;
  }

  /** Keep the latest snapshot at or before the target. */
  method LatestBase(bases: seq<Meta>, target: int) returns (base: Option<Meta>)
    requires Oldest(bases)
    ensures base.None? <==> forall b :: b in bases ==> b.time > target
    ensures base.Some? ==> base.value in bases && base.value.time <= target
                           && forall b :: b in bases && b.time <= target ==> b.time <= base.value.time
  {
    base := None;
    for i := 0 to |bases|
      invariant base.None? <==> forall k :: 0 <= k < i ==> bases[k].time > target
      invariant base.Some? ==> base.value in bases[..i] && base.value.time <= target
      invariant base.Some? ==> forall k :: 0 <= k < i && bases[k].time <= target ==> bases[k].time <= base.value.time
    {
      if bases[i].time <= target { base := Some(bases[i]); }
    }
  }

  /** The restored bundles: oldest first, up to and with the first that is after the target. */
  ghost predicate Spanning(staged: seq<Meta>, all: multiset<Meta>, target: int) {
    && |staged| > 0 && multiset(staged) <= all && Oldest(staged)
    && staged[|staged| - 1].time > target
    && (forall i :: 0 <= i < |staged| - 1 ==> staged[i].time <= target)
    // every bundle at or before the target is there, as often as it was listed,
    && (forall m: Meta :: m.time <= target ==> multiset(staged)[m] == all[m])
    // and no bundle after the target is older than the last one.
    && (forall m :: m in all && m.time > target ==> staged[|staged| - 1].time <= m.time)
  }

  lemma {:induction false} PrefixCounts(a: seq<Meta>, b: seq<Meta>, target: int)
    requires forall m :: m in b ==> m.time > target
    ensures multiset(a) <= multiset(a + b)
    ensures forall m: Meta :: m.time <= target ==> multiset(a)[m] == multiset(a + b)[m]
  {
    assert multiset(a + b) == multiset(a) + multiset(b);
    forall m: Meta | m.time <= target ensures multiset(b)[m] == 0 {
      assert m !in b;
    }
  }

  lemma {:induction false} SpansSplit(staged: seq<Meta>, rest: seq<Meta>, target: int)
    requires |staged| > 0 && Oldest(staged) && staged[|staged| - 1].time > target
    requires forall k :: 0 <= k < |staged| - 1 ==> staged[k].time <= target
    requires forall m :: m in rest ==> staged[|staged| - 1].time <= m.time
    ensures Spanning(staged, multiset(staged + rest), target)
  {
    PrefixCounts(staged, rest, target);
    forall m | m in multiset(staged + rest) && m.time > target ensures staged[|staged| - 1].time <= m.time {
      assert m in staged + rest;
      if m !in rest {
        var k :| 0 <= k < |staged| && staged[k] == m;
      }
    }
  }

  lemma {:induction false} SpansAt(wals: seq<Meta>, i: nat, target: int)
    requires Oldest(wals) && i < |wals| && wals[i].time > target
    requires forall k :: 0 <= k < i ==> wals[k].time <= target
    ensures Spanning(wals[..i + 1], multiset(wals), target)
  {
    hide Spanning;
    var staged, rest := wals[..i + 1], wals[i + 1..];
    assert Oldest(staged);
    SpansSplit(staged, rest, target);
    assert wals == staged + rest;
  }

  method StageWals(wals: seq<Meta>, target: int, restores: set<string>) returns (ok: bool, staged: seq<Meta>,
                   spans: bool)
    requires Oldest(wals)
    ensures ok <==> forall m :: m in staged ==> m.id in restores
    ensures staged <= wals
    ensures ok && spans ==> Spanning(staged, multiset(wals), target)
    ensures ok && !spans ==> staged == wals && forall m :: m in wals ==> m.time <= target
    ensures !ok ==> |staged| > 0 && staged <= wals && forall i :: 0 <= i < |staged| - 1 ==> staged[i].time <= target
  {
    hide Spanning;
    staged, spans := [], false;
    for i := 0 to |wals|
      invariant staged == wals[..i] && !spans
      invariant forall k :: 0 <= k < i ==> wals[k].time <= target && wals[k].id in restores
    {
      staged := staged + [wals[i]];
      if wals[i].id !in restores {
        assert staged[i] in staged;
        return false, staged, false;
      }
      if wals[i].time > target {
        SpansAt(wals, i, target);
        assert staged == wals[..i + 1];
        return true, staged, true;
      }
    }
    return true, staged, false;
  }

  /** A snapshot that a restore can replay from. */
  predicate BaseFor(rows: seq<Row>, target: int, b: Meta) {
    b in Metas(rows) && b.time <= target && forall c :: c in Metas(rows) && c.time <= target ==> c.time <= b.time
  }

  /** The selection of opBackupRestorePITR. `bases` and `wals` are None where listing fails,
      `restores` the snapshots that can be fetched, `hasTar` whether the base held its tar. */
  method SelectPitr(bases: Option<seq<Row>>, wals: Option<seq<Row>>, target: int, restores: set<string>, hasTar: bool)
    returns (r: Outcome)
    // What is staged: the newest base not after the target and the shortest run of bundles that passes it.
    ensures r.Staged? ==>
              && bases.Some? && BaseFor(bases.value, target, r.base)
              && wals.Some? && Spanning(r.wals, multiset(Metas(wals.value)), target)
    ensures r.Staged? ==> r.base.id in restores && hasTar && forall m :: m in r.wals ==> m.id in restores
    // When everything can be fetched it is refused exactly when there is no such base or no such bundle.
    ensures bases.Some? && wals.Some? && hasTar
            && (forall b :: b in Metas(bases.value) ==> b.id in restores)
            && (forall m :: m in Metas(wals.value) ==> m.id in restores) ==>
              (r.Refused? <==>
               || (forall b :: b in Metas(bases.value) ==> b.time > target)
               || (forall m :: m in Metas(wals.value) ==> m.time <= target))
    ensures r == Refused(NoBase) ==> bases.Some? && forall b :: b in Metas(bases.value) ==> b.time > target
    ensures r == Refused(NotSpanned) ==> wals.Some? && forall m :: m in Metas(wals.value) ==> m.time <= target
  {
    if bases.None? { return Refused(ListBase); }
    var sorted := SnapshotsByTag(bases.value);
    SameMembers(sorted, Metas(bases.value));
    var base := LatestBase(sorted, target);
    if base.None? { return Refused(NoBase); }
    if base.value.id !in restores { return Refused(RestoreBase); }
    if !hasTar { return Refused(BaseMissing); }
    if wals.None? { return Refused(ListWal); }
    var bundles := SnapshotsByTag(wals.value);
    SameMembers(bundles, Metas(wals.value));
    var ok, staged, spans := StageWals(bundles, target, restores);
    if !ok {
      var m :| m in staged && m.id !in restores;
      assert m in bundles;
      return Refused(RestoreWal);
    }
    if !spans { return Refused(NotSpanned); }
    assert staged[|staged| - 1] in multiset(staged);
    return Staged(base.value, staged);
  }

  /** The selection in terms of the rows that were listed. */
  lemma {:induction false} RowsPlainly(bases: seq<Row>, wals: seq<Row>, base: Meta, staged: seq<Meta>, target: int)
    requires BaseFor(bases, target, base) && Spanning(staged, multiset(Metas(wals)), target)
    ensures base.time <= target && Row(base.id, Some(base.time)) in bases && base.id != ""
    ensures forall row :: row in bases && row.id != "" && row.time.Some? && row.time.value <= target ==>
              row.time.value <= base.time
    ensures |staged| > 0 && staged[|staged| - 1].time > target
    ensures forall i :: 0 <= i < |staged| - 1 ==> staged[i].time <= staged[i + 1].time && staged[i].time <= target
    ensures forall row :: row in wals && row.id != "" && row.time.Some? && row.time.value <= target ==>
              Meta(row.id, row.time.value) in staged
    ensures forall row :: row in wals && row.id != "" && row.time.Some? && row.time.value > target ==>
              staged[|staged| - 1].time <= row.time.value
  {
    hide Metas;
    MetasAreRows(bases, base);
    forall row | row in bases && row.id != "" && row.time.Some? ensures Meta(row.id, row.time.value) in Metas(bases) {
      MetasAreRows(bases, Meta(row.id, row.time.value));
    }
    forall row | row in wals && row.id != "" && row.time.Some?
      ensures Meta(row.id, row.time.value) in multiset(Metas(wals))
    {
      MetasAreRows(wals, Meta(row.id, row.time.value));
    }
    forall row | row in wals && row.id != "" && row.time.Some? && row.time.value <= target
      ensures Meta(row.id, row.time.value) in staged
    {
      var m := Meta(row.id, row.time.value);
      assert multiset(staged)[m] == multiset(Metas(wals))[m];
    }
  }

  lemma {:induction false} SameMembers(a: seq<Meta>, b: seq<Meta>)
    requires multiset(a) == multiset(b)
    ensures forall m :: m in a <==> m in b
  {
    forall m ensures m in a <==> m in b {
      assert m in a <==> m in multiset(a);
      assert m in b <==> m in multiset(b);
    }
  }

  // ---- what the staged bundles hold ----

  /** The rows of a repository whose snapshots have these ids. */
  function RowsOf(ids: seq<string>, repo: seq<Wal.Bundle>): seq<Row>
    requires |ids| == |repo|
  {
    if ids == [] then []
    else RowsOf(ids[..|ids| - 1], repo[..|repo| - 1]) + [Row(ids[|ids| - 1], Some(repo[|repo| - 1].stamp))]
  }

  function MetaOf(ids: seq<string>, repo: seq<Wal.Bundle>, i: nat): Meta
    requires i < |ids| == |repo|
  {
    Meta(ids[i], repo[i].stamp)
  }

  lemma {:induction false} RowsOfAt(ids: seq<string>, repo: seq<Wal.Bundle>)
    requires |ids| == |repo|
    ensures |RowsOf(ids, repo)| == |ids|
    ensures forall i :: 0 <= i < |ids| ==> RowsOf(ids, repo)[i] == Row(ids[i], Some(repo[i].stamp))
  {
    if ids != [] { RowsOfAt(ids[..|ids| - 1], repo[..|repo| - 1]); }
  }

  /** The segment is in one of the staged bundles. */
  ghost predicate Fetched(ids: seq<string>, repo: seq<Wal.Bundle>, staged: seq<Meta>, n: string)
    requires |ids| == |repo|
  {
    exists i :: 0 <= i < |ids| && MetaOf(ids, repo, i) in staged && n in repo[i].content
  }

  lemma {:induction false} MetasOfRows(ids: seq<string>, repo: seq<Wal.Bundle>)
    requires |ids| == |repo| && "" !in ids
    ensures forall i :: 0 <= i < |ids| ==> MetaOf(ids, repo, i) in Metas(RowsOf(ids, repo))
    ensures forall m :: m in Metas(RowsOf(ids, repo)) ==> exists i :: 0 <= i < |ids| && MetaOf(ids, repo, i) == m
  {
    var rows := RowsOf(ids, repo);
    RowsOfAt(ids, repo);
    forall i | 0 <= i < |ids| ensures MetaOf(ids, repo, i) in Metas(rows) {
      assert rows[i] in rows && ids[i] in ids;
      MetasAreRows(rows, MetaOf(ids, repo, i));
    }
    forall m | m in Metas(rows) ensures exists i :: 0 <= i < |ids| && MetaOf(ids, repo, i) == m {
      MetasAreRows(rows, m);
      var i :| 0 <= i < |rows| && rows[i] == Row(m.id, Some(m.time));
      assert MetaOf(ids, repo, i) == m;
    }
  }

  lemma {:induction false} EarlyIsStaged(ids: seq<string>, repo: seq<Wal.Bundle>, staged: seq<Meta>, target: int,
                                         i: nat)
    requires |ids| == |repo| && "" !in ids && i < |ids| && repo[i].stamp <= target
    requires Spanning(staged, multiset(Metas(RowsOf(ids, repo))), target)
    ensures MetaOf(ids, repo, i) in staged
  {
    MetasOfRows(ids, repo);
    var m, all := MetaOf(ids, repo, i), Metas(RowsOf(ids, repo));
    assert m in multiset(all);
    assert multiset(staged)[m] == multiset(all)[m];
  }

  /** Every bundle up to the target that has not been forgotten is staged, and with it all
      that was ready at its cycle if it was confirmed. */
  lemma {:induction false} ConfirmedIsFetched(ids: seq<string>, repo: seq<Wal.Bundle>, sent: seq<Wal.Sent>,
                                              floor: Option<int>,
                                              staged: seq<Meta>, target: int, x: Wal.Sent)
    requires |ids| == |repo| && "" !in ids && Wal.Held(repo, sent, floor) && Wal.Whole(sent)
    requires Spanning(staged, multiset(Metas(RowsOf(ids, repo))), target)
    requires x in sent && x.bundle.stamp <= target && !Wal.Past(floor, x.bundle.stamp)
    ensures forall n :: n in x.bundle.content ==> Fetched(ids, repo, staged, n)
    ensures x.confirmed ==> forall n :: n in x.ready ==> Fetched(ids, repo, staged, n)
  {
    hide Spanning, Metas, RowsOf;
    var i :| 0 <= i < |repo| && repo[i] == x.bundle;
    EarlyIsStaged(ids, repo, staged, target, i);
  }

  /** The bundle that spans the target is a bundle of some cycle, later than the target. It
      holds all that was ready at that cycle exactly if its content is all of it, that is,
      if tar did not stop short. */
  lemma {:induction false} SpanningBundle(ids: seq<string>, repo: seq<Wal.Bundle>, sent: seq<Wal.Sent>,
                                          floor: Option<int>,
                                          staged: seq<Meta>, target: int) returns (x: Wal.Sent)
    requires |ids| == |repo| && "" !in ids && Wal.Held(repo, sent, floor) && Wal.Whole(sent)
    requires Spanning(staged, multiset(Metas(RowsOf(ids, repo))), target)
    ensures x in sent && x.bundle in repo && x.bundle.stamp > target
    ensures |staged| > 0 && x.bundle.stamp == staged[|staged| - 1].time
    ensures forall n :: n in x.bundle.content ==> Fetched(ids, repo, staged, n)
    ensures x.bundle.content == x.ready ==> forall n :: n in x.ready ==> Fetched(ids, repo, staged, n)
  {
    hide Metas, RowsOf;
    var last := staged[|staged| - 1];
    assert last in multiset(staged);
    assert last in Metas(RowsOf(ids, repo));
    MetasOfRows(ids, repo);
    var i :| 0 <= i < |ids| && MetaOf(ids, repo, i) == last;
    assert repo[i] in repo;
    x :| x in sent && x.bundle == repo[i];
  }

  /** Later bundles carry later stamps. */
  predicate Rising(sent: seq<Wal.Sent>) {
    forall i, j :: 0 <= i < j < |sent| ==> sent[i].bundle.stamp < sent[j].bundle.stamp
  }

  /** Every earlier confirmed bundle with the segment has been forgotten. */
  predicate ForgottenBefore(sent: seq<Wal.Sent>, floor: Option<int>, i: nat, n: string) {
    forall k :: 0 <= k < i && k < |sent| && sent[k].confirmed && n in sent[k].bundle.content ==>
        Wal.Past(floor, sent[k].bundle.stamp)
  }

  /** A bundle older than the spanning one is not after the target, unless it is forgotten. */
  lemma {:induction false} OlderIsEarly(ids: seq<string>, repo: seq<Wal.Bundle>, sent: seq<Wal.Sent>,
                                        floor: Option<int>,
                                        staged: seq<Meta>, target: int, y: Wal.Sent)
    requires |ids| == |repo| && "" !in ids && Wal.Held(repo, sent, floor) && y in sent
    requires Spanning(staged, multiset(Metas(RowsOf(ids, repo))), target)
    requires y.bundle.stamp < staged[|staged| - 1].time && !Wal.Past(floor, y.bundle.stamp)
    ensures y.bundle.stamp <= target
  {
    hide Metas, RowsOf;
    var i :| 0 <= i < |repo| && repo[i] == y.bundle;
    MetasOfRows(ids, repo);
    assert MetaOf(ids, repo, i) in multiset(Metas(RowsOf(ids, repo)));
  }

  /** What replay needs: when stamps rise with the cycles and the spanning bundle is whole,
      everything archived by its listing is staged, but for what only forgotten bundles held. */
  lemma {:induction false} AllIsFetched(ids: seq<string>, repo: seq<Wal.Bundle>, sent: seq<Wal.Sent>,
                                        floor: Option<int>,
                                        staged: seq<Meta>, target: int, i: nat, n: string)
    requires |ids| == |repo| && "" !in ids && Wal.Held(repo, sent, floor) && Wal.Whole(sent) && Wal.Accounted(sent)
             && Rising(sent)
    requires Spanning(staged, multiset(Metas(RowsOf(ids, repo))), target)
    requires i < |sent| && sent[i].bundle.stamp == staged[|staged| - 1].time && sent[i].bundle.content == sent[i].ready
    requires forall m :: m in sent[i].bundle.content ==> Fetched(ids, repo, staged, m)
    requires n in sent[i].archived
    ensures Fetched(ids, repo, staged, n) || (n !in sent[i].ready && ForgottenBefore(sent, floor, i, n))
  {
    hide Spanning, Metas, RowsOf, Fetched, Wal.Held, Wal.Whole;
    if n !in sent[i].ready && !ForgottenBefore(sent, floor, i, n) {
      var k :| 0 <= k < i && k < |sent| && sent[k].confirmed && n in sent[k].bundle.content
          && !Wal.Past(floor, sent[k].bundle.stamp);
      OlderIsEarly(ids, repo, sent, floor, staged, target, sent[k]);
      ConfirmedIsFetched(ids, repo, sent, floor, staged, target, sent[k]);
    }
  }

  /** A restore from what the shipper has shipped. What was confirmed up to the target, and
      not forgotten since, is always staged. The spanning bundle is `s.sent[i]`; when stamps
      rise with the cycles and its own tar did not stop short, everything archived by its
      listing is staged, but for what every earlier confirmed bundle was forgotten with. */
  method RestoreShipped(s: Wal.Shipper, ids: seq<string>, bases: Option<seq<Row>>, target: int,
                        restores: set<string>, hasTar: bool)
    returns (r: Outcome, ghost i: nat)
    requires s.Valid() && |ids| == |s.repo| && "" !in ids
    ensures r.Staged? ==>
              forall x ::
                x in s.sent && x.confirmed && x.bundle.stamp <= target && !Wal.Past(s.floor, x.bundle.stamp) ==>
                  forall n :: n in x.ready ==> Fetched(ids, s.repo, r.wals, n)
    ensures r.Staged? ==> i < |s.sent| && s.sent[i].bundle in s.repo && s.sent[i].bundle.stamp > target
    ensures r.Staged? && s.sent[i].bundle.content == s.sent[i].ready ==>
              forall n :: n in s.sent[i].ready ==> Fetched(ids, s.repo, r.wals, n)
    ensures r.Staged? && s.sent[i].bundle.content == s.sent[i].ready && Rising(s.sent) ==>
              forall n :: n in s.sent[i].archived ==>
                Fetched(ids, s.repo, r.wals, n) || (n !in s.sent[i].ready && ForgottenBefore(s.sent, s.floor, i, n))
  {
    hide Spanning, RowsOf, Metas, Fetched, Wal.Kept, Wal.Marked, Wal.Held, Wal.Whole, Wal.Recorded, Wal.Accounted,
         Wal.Topped, ForgottenBefore, Rising;
    r := SelectPitr(bases, Some(RowsOf(ids, s.repo)), target, restores, hasTar);
    i := 0;
    if r.Staged? {
      forall x | x in s.sent && x.confirmed && x.bundle.stamp <= target && !Wal.Past(s.floor, x.bundle.stamp)
        ensures forall n :: n in x.ready ==> Fetched(ids, s.repo, r.wals, n)
      {
        ConfirmedIsFetched(ids, s.repo, s.sent, s.floor, r.wals, target, x);
      }
      ghost var x := SpanningBundle(ids, s.repo, s.sent, s.floor, r.wals, target);
      i :| 0 <= i < |s.sent| && s.sent[i] == x;
      if x.bundle.content == x.ready && Rising(s.sent) {
        forall n | n in x.archived
          ensures Fetched(ids, s.repo, r.wals, n) || (n !in x.ready && ForgottenBefore(s.sent, s.floor, i, n))
        {
          AllIsFetched(ids, s.repo, s.sent, s.floor, r.wals, target, i, n);
        }
      }
    }
  }

  /** Otherwise a bundle after the target says nothing of its content: when tar fails and
      restic still saves what it got, that bundle passes for the one that spans the target,
      though the only archived segment is in none. */
  method CutShortBundleSpans(segment: string, target: int) returns (repo: seq<Wal.Bundle>, r: Outcome)
    requires Wal.Ready(segment)
    ensures forall b :: b in repo ==> segment !in b.content
    ensures |repo| == 1 && r == Staged(Meta("base", target), [Meta("wal", repo[0].stamp)])
  {
    repo := CutShort(segment, target + 1);
    r := SpanTarget(target, repo[0].stamp);
  }

  method CutShort(segment: string, stamp: int) returns (repo: seq<Wal.Bundle>)
    requires Wal.Ready(segment)
    ensures repo == [Wal.Bundle(stamp, {})]
  {
    hide Wal.Kept, Wal.Marked, Wal.Held, Wal.Recorded, Wal.Whole, Wal.Accounted, Wal.Topped, Wal.Ready, Wal.ReadyIn,
         Wal.Reports;
    var s := OneSegment(segment);
    var ok := s.ShipOne(Wal.Cycle(Wal.Works, true, true, Some(0), Wal.Saved, stamp, {}, true, [], [], []));
    repo := s.repo;
  }

  method OneSegment(segment: string) returns (s: Wal.Shipper)
    requires Wal.Ready(segment)
    ensures fresh(s) && s.Valid() && s.repo == [] && Wal.ReadyIn(s.spool) != {}
  {
    hide Wal.Kept, Wal.Marked, Wal.Held, Wal.Recorded, Wal.Whole, Wal.Accounted, Wal.Topped, Wal.Ready;
    s := new Wal.Shipper();
    assert s.archived + [segment] == [segment];
    s.ArchiveOne(Wal.Finished(segment));
    assert segment in s.archived[0..];
    assert segment in Wal.ReadyIn(s.spool);
  }

  lemma {:induction false} OneRow(id: string, time: int)
    requires id != ""
    ensures Metas([Row(id, Some(time))]) == [Meta(id, time)]
  {
    assert [Row(id, Some(time))][..0] == [];
  }

  method SpanTarget(target: int, stamp: int) returns (r: Outcome)
    requires target < stamp
    ensures r == Staged(Meta("base", target), [Meta("wal", stamp)])
  {
    hide Spanning, Metas;
    OneRow("base", target);
    OneRow("wal", stamp);
    r := SelectPitr(Some([Row("base", Some(target))]), Some([Row("wal", Some(stamp))]), target, {"base", "wal"}, true);
    OnlyOne(r.wals, Meta("wal", stamp), target);
  }

  lemma {:induction false} OnlyOne(staged: seq<Meta>, m: Meta, target: int)
    requires Spanning(staged, multiset([m]), target)
    ensures staged == [m]
  {
    forall i | 0 <= i < |staged| ensures staged[i] == m {
      assert staged[i] in multiset(staged);
      assert staged[i] in multiset([m]);
    }
    assert |staged| > 1 ==> staged[0].time <= target;
  }
}
