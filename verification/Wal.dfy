/** agent/internal/backup/wal.go: shipping write-ahead-log segments from the spool to the
    repository while Postgres keeps archiving, and resticForgetWAL, which drops old bundles. */
module Wal {
  import opened Wrappers
  import opened Lex

  /** A snapshot tagged "wal" and the segments its tar holds. */
  datatype Bundle = Bundle(stamp: int, content: set<string>)

  /** A bundle as it was added: what was ready at its cycle, whether it was confirmed, and
      everything archived by the time of the listing. */
  datatype Sent = Sent(bundle: Bundle, ready: set<string>, confirmed: bool, archived: seq<string>)

  /** What the archive command does next: it writes under a temporary name, then renames. */
  datatype Arrival = HalfWritten(name: string) | Finished(name: string)

  /** The listing exec works, fails, or exits nonzero. */
  datatype Listed = Works | Breaks | Nonzero

  /** restic saves the stream, does not, or saves it and still reports an error. */
  datatype Fate = Saved | Refused | SavedButFailed

  /** What one cycle meets. `tarStops` is how many segments tar writes before it fails;
      `survives` are the files rm does not get to; `reported` is whether the process lives
      to report the mark and the report gets through; the rest is what arrives meanwhile. */
  datatype Cycle = Cycle(list: Listed, creds: bool, init: bool, tarStops: Option<nat>, fate: Fate, stamp: int,
                         survives: set<string>, reported: bool,
                         afterList: seq<Arrival>, afterShip: seq<Arrival>, afterRemove: seq<Arrival>)

  predicate EndsIn(name: string, suffix: string) {
    |suffix| <= |name| && name[|name| - |suffix|..] == suffix
  }

  predicate Ready(name: string) {
    name != "" && !EndsIn(name, ".tmp")
  }

  predicate Increasing(s: seq<string>) {
    forall i, j :: 0 <= i < j < |s| ==> Lt(s[i], s[j])
  }

  /** Every archived segment up to `mark` is in `safe`. */
  predicate TrueMark(archived: seq<string>, safe: set<string>, mark: string) {
    mark in archived && forall n :: n in archived && Le(n, mark) ==> n in safe
  }

  /** What arrives later lies above every mark. */
  lemma {:induction false} LaterIsAbove(archived: seq<string>, name: string, n: string)
    requires Increasing(archived + [name]) && n in archived
    ensures !Le(name, n)
  {
    var s := archived + [name];
    var i :| 0 <= i < |archived| && archived[i] == n;
    assert s[i] == n && s[|archived|] == name;
    if Le(name, n) { Antisymmetric(n, name); }
  }

  lemma {:induction false} MarkStays(archived: seq<string>, name: string, safe: set<string>, mark: string)
    requires TrueMark(archived, safe, mark) && Increasing(archived + [name])
    ensures TrueMark(archived + [name], safe, mark)
  {
    LaterIsAbove(archived, name, mark);
  }

  /** The last of the listed segments is a true mark once they are all safe: what is below
      it was either listed or shipped before, and what came after the listing is above it. */
  lemma {:induction false} LastIsTrueMark(before: seq<string>, archived: seq<string>, listed: seq<string>,
                                          safe: set<string>)
    requires before <= archived && Increasing(archived) && |listed| > 0 && Sorted(listed)
    requires forall n :: n in listed ==> n in before && n in safe
    requires forall n :: n in before ==> n in listed || n in safe
    ensures TrueMark(archived, safe, listed[|listed| - 1])
  {
    var mark := listed[|listed| - 1];
    assert mark in before;
    forall n | n in archived && Le(n, mark) ensures n in safe {
      if n !in before {
        var i :| 0 <= i < |before| && before[i] == mark;
        var j :| 0 <= j < |archived| && archived[j] == n;
        assert archived[i] == mark && j >= |before|;
        assert Lt(mark, n);
        Antisymmetric(n, mark);
      }
    }
  }

  /** Every archived segment is in the spool or safe. */
  predicate Kept(archived: seq<string>, spool: set<string>, safe: set<string>) {
    && Increasing(archived) && (forall n :: n in archived ==> Ready(n))
    && (forall n :: n in spool && Ready(n) ==> n in archived)
    && (forall n :: n in archived ==> n in spool || n in safe)
    && (forall n :: n in safe ==> n in archived)
  }

  function ReadyIn(spool: set<string>): set<string> {
    set n | n in spool && Ready(n)
  }

  /** What is safe was in a confirmed bundle. */
  ghost predicate Recorded(safe: set<string>, sent: seq<Sent>) {
    forall n :: n in safe ==> exists x :: x in sent && x.confirmed && n in x.bundle.content
  }

  /** Bundles older than the floor have been forgotten. */
  predicate Past(floor: Option<int>, stamp: int) {
    floor.Some? && stamp < floor.value
  }

  /** The repository holds every bundle ever added but those forgotten, and no other. */
  ghost predicate Held(repo: seq<Bundle>, sent: seq<Sent>, floor: Option<int>) {
    && (forall x :: x in sent ==> x.bundle in repo || Past(floor, x.bundle.stamp))
    && (forall b :: b in repo ==> exists x :: x in sent && x.bundle == b)
  }

  /** A bundle holds nothing but what was ready at its cycle, and all of that if confirmed. */
  predicate Whole(sent: seq<Sent>) {
    forall x :: x in sent ==> x.bundle.content <= x.ready && (x.confirmed ==> x.bundle.content == x.ready)
  }

  /** An earlier confirmed bundle holds the segment. */
  predicate Earlier(sent: seq<Sent>, i: nat, n: string) {
    exists k :: 0 <= k < i && k < |sent| && sent[k].confirmed && n in sent[k].bundle.content
  }

  /** What was archived by a bundle's listing was ready then, or in an earlier confirmed bundle. */
  predicate Accounted(sent: seq<Sent>) {
    forall i, n :: 0 <= i < |sent| && n in sent[i].archived ==> n in sent[i].ready || Earlier(sent, i, n)
  }

  lemma {:induction false} AccountedMore(archived: seq<string>, spool: set<string>, safe: set<string>,
                                         sent: seq<Sent>, x: Sent)
    requires Kept(archived, spool, safe) && Recorded(safe, sent) && Accounted(sent)
    requires x.archived == archived && x.ready == ReadyIn(spool)
    ensures Accounted(sent + [x])
  {
    var all := sent + [x];
    forall i, n | 0 <= i < |all| && n in all[i].archived ensures n in all[i].ready || Earlier(all, i, n) {
      if i < |sent| {
        assert all[i] == sent[i];
        if Earlier(sent, i, n) {
          var k :| 0 <= k < i && k < |sent| && sent[k].confirmed && n in sent[k].bundle.content;
          assert all[k] == sent[k];
        }
      } else if n !in x.ready {
        assert n in safe;
        var y :| y in sent && y.confirmed && n in y.bundle.content;
        var k :| 0 <= k < |sent| && sent[k] == y;
        assert all[k] == y;
      }
    }
  }

  /** Every confirmed bundle that held the segment has been forgotten. */
  ghost predicate Forgotten(sent: seq<Sent>, floor: Option<int>, n: string) {
    forall x :: x in sent && x.confirmed && n in x.bundle.content ==> Past(floor, x.bundle.stamp)
  }

  ghost predicate InBundle(repo: seq<Bundle>, n: string) {
    exists b :: b in repo && n in b.content
  }

  /** What is safe is in the repository until every confirmed bundle with it has been forgotten. */
  lemma {:induction false} SafeIsHeld(repo: seq<Bundle>, safe: set<string>, sent: seq<Sent>, floor: Option<int>,
                                      n: string)
    requires Recorded(safe, sent) && Held(repo, sent, floor) && n in safe
    ensures InBundle(repo, n) || Forgotten(sent, floor, n)
    ensures floor.None? ==> InBundle(repo, n)
  {
    var x :| x in sent && x.confirmed && n in x.bundle.content;
    if y :| y in sent && y.confirmed && n in y.bundle.content && !Past(floor, y.bundle.stamp) {
      assert y.bundle in repo;
    }
    if floor.None? { assert x.bundle in repo; }
  }

  predicate Marked(archived: seq<string>, safe: set<string>, marks: seq<string>) {
    forall m :: m in marks ==> TrueMark(archived, safe, m)
  }

  lemma {:induction false} SentMore(repo: seq<Bundle>, safe: set<string>, sent: seq<Sent>, floor: Option<int>, x: Sent)
    requires Recorded(safe, sent) && Held(repo, sent, floor) && Whole(sent)
    requires x.bundle.content <= x.ready && (x.confirmed ==> x.bundle.content == x.ready)
    ensures Held(repo + [x.bundle], sent + [x], floor) && Whole(sent + [x])
    ensures Recorded(if x.confirmed then safe + x.ready else safe, sent + [x])
  {
    var repo', sent' := repo + [x.bundle], sent + [x];
    assert sent'[|sent|] == x && repo'[|repo|] == x.bundle;
    forall y | y in sent' ensures y == x || y in sent {}
    forall y | y in sent ensures y in sent' {}
    forall b | b in repo' ensures exists y :: y in sent' && y.bundle == b {
      if b in repo {
        var y :| y in sent && y.bundle == b;
        assert y in sent';
      } else {
        assert x in sent';
      }
    }
    forall n | n in safe ensures exists y :: y in sent' && y.confirmed && n in y.bundle.content {
      var y :| y in sent && y.confirmed && n in y.bundle.content;
      assert y in sent';
    }
  }

  /** The bundles that a forget with this cutoff leaves. */
  function Recent(repo: seq<Bundle>, cutoff: int): seq<Bundle> {
    if repo == [] then []
    else Recent(repo[..|repo| - 1], cutoff) + if repo[|repo| - 1].stamp < cutoff then [] else [repo[|repo| - 1]]
  }

  lemma {:induction false} RecentIs(repo: seq<Bundle>, cutoff: int)
    ensures forall b :: b in Recent(repo, cutoff) <==> b in repo && b.stamp >= cutoff
  {
    if repo != [] {
      RecentIs(repo[..|repo| - 1], cutoff);
      assert repo == repo[..|repo| - 1] + [repo[|repo| - 1]];
    }
  }

  function Raised(floor: Option<int>, cutoff: int): Option<int> {
    if Past(floor, cutoff) then floor else Some(cutoff)
  }

  lemma {:induction false} ForgetKeeps(repo: seq<Bundle>, sent: seq<Sent>, floor: Option<int>, cutoff: int)
    requires Held(repo, sent, floor)
    ensures Held(Recent(repo, cutoff), sent, Raised(floor, cutoff))
  {
    RecentIs(repo, cutoff);
  }

  lemma {:induction false} ConfirmKeeps(archived: seq<string>, spool: set<string>, safe: set<string>,
                                        marks: seq<string>,
                                        segments: set<string>, survives: set<string>)
    requires Kept(archived, spool, safe) && Marked(archived, safe, marks)
    requires forall n :: n in segments ==> n in spool && Ready(n)
    ensures Kept(archived, spool - (segments - survives), safe + segments) && Marked(archived, safe + segments, marks)
  {
  }

  lemma {:induction false} ArriveKeeps(archived: seq<string>, spool: set<string>, safe: set<string>,
                                       marks: seq<string>, name: string)
    requires Kept(archived, spool, safe) && Marked(archived, safe, marks) && Ready(name)
             && Increasing(archived + [name])
    ensures Kept(archived + [name], spool - {name + ".tmp"} + {name}, safe) && Marked(archived + [name], safe, marks)
  {
    assert EndsIn(name + ".tmp", ".tmp");
    forall m | m in marks ensures TrueMark(archived + [name], safe, m) { MarkStays(archived, name, safe, m); }
  }

  /** The mark of a cycle is the greatest segment listed; whatever else is not yet safe is
      below it. */
  lemma {:induction false} LastIsGreatest(before: seq<string>, spool: set<string>, safe: set<string>,
                                          listed: seq<string>)
    requires Kept(before, spool, safe) && Sorted(listed) && |listed| > 0
    requires forall n :: n in listed <==> n in spool && Ready(n)
    ensures var mark := listed[|listed| - 1];
            mark in spool && Ready(mark) && forall n :: n in spool && Ready(n) ==> Le(n, mark)
    ensures forall n :: n in before ==> n in safe || Le(n, listed[|listed| - 1])
  {
    hide Le;
    var mark := listed[|listed| - 1];
    assert mark in listed;
    forall n | n in listed ensures Le(n, mark) {
      var i :| 0 <= i < |listed| && listed[i] == n;
      Reflexive(n);
    }
  }

  /** The segment is at or below a reported mark. */
  ghost predicate Covered(n: string, marks: seq<string>) {
    exists m :: m in marks && Le(n, m)
  }

  /** Everything safe is covered, but for what was confirmed in cycles that never reported. */
  ghost predicate Topped(safe: set<string>, marks: seq<string>, unreported: set<string>) {
    forall n :: n in safe ==> Covered(n, marks) || n in unreported
  }

  /** The mark is above every earlier one. */
  predicate Rises(marks: seq<string>, mark: string) {
    forall m :: m in marks ==> Lt(m, mark)
  }

  /** A mark rises above all earlier ones exactly if something listed was covered by none. */
  lemma {:induction false} RisesIff(marks: seq<string>, mark: string, ready: set<string>)
    requires Greatest(mark, ready)
    ensures Rises(marks, mark) <==> exists n :: n in ready && !Covered(n, marks)
  {
    hide Le;
    if Covered(mark, marks) {
      var m :| m in marks && Le(mark, m);
      if Lt(m, mark) { Antisymmetric(m, mark); }
    }
    if n :| n in ready && !Covered(n, marks) {
      forall m | m in marks ensures Lt(m, mark) {
        Total(m, n);
        Transitive(m, n, mark);
      }
    } else {
      assert Covered(mark, marks);
    }
  }

  /** What is not safe is covered by no mark, and while every cycle has reported what is
      safe is covered: then a mark rises exactly if something listed was not safe before. */
  lemma {:induction false} CoveredIffSafe(archived: seq<string>, safe: set<string>, marks: seq<string>,
                                          unreported: set<string>, n: string)
    requires Marked(archived, safe, marks) && Topped(safe, marks, unreported) && n in archived
    ensures n !in safe ==> !Covered(n, marks)
    ensures unreported == {} ==> (Covered(n, marks) <==> n in safe)
  {
    hide Le;
    if m :| m in marks && Le(n, m) { assert TrueMark(archived, safe, m); }
  }

  /** The marks of a cycle: none, or the greatest of what was ready. */
  ghost predicate Reports(marks: seq<string>, marks': seq<string>, ready: set<string>, safe: set<string>,
                          unreported: set<string>) {
    exists mark ::
      && marks' == marks + [mark] && Greatest(mark, ready)
      && (Rises(marks, mark) <==> exists n :: n in ready && !Covered(n, marks))
      && (!(ready <= safe) ==> Rises(marks, mark))
      && (unreported == {} ==> (Rises(marks, mark) <==> !(ready <= safe)))
  }

  lemma {:induction false} ReportsMark(archived: seq<string>, safe: set<string>, marks: seq<string>,
                                       unreported: set<string>,
                                       ready: set<string>, mark: string)
    requires Marked(archived, safe, marks) && Topped(safe, marks, unreported)
    requires Greatest(mark, ready) && forall n :: n in ready ==> n in archived
    ensures Reports(marks, marks + [mark], ready, safe, unreported)
  {
    hide Le, Marked, Topped, Covered, Greatest, Rises;
    RisesIff(marks, mark, ready);
    forall n | n in ready ensures n !in safe ==> !Covered(n, marks) {
      CoveredIffSafe(archived, safe, marks, unreported, n);
    }
    forall n | n in ready ensures unreported == {} ==> (Covered(n, marks) <==> n in safe) {
      CoveredIffSafe(archived, safe, marks, unreported, n);
    }
  }

  lemma {:induction false} ToppedMore(safe: set<string>, marks: seq<string>, unreported: set<string>,
                                      ready: set<string>)
    requires Topped(safe, marks, unreported)
    ensures Topped(safe + ready, marks, unreported + ready)
    ensures forall mark :: Greatest(mark, ready) ==> Topped(safe + ready, marks + [mark], unreported)
  {
    hide Le;
    forall mark, n | Greatest(mark, ready) && n in safe + ready ensures Covered(n, marks + [mark]) || n in unreported {
      assert (marks + [mark])[|marks|] == mark;
      if n in safe && Covered(n, marks) {
        var m :| m in marks && Le(n, m);
        assert m in marks + [mark];
      }
    }
  }

  /** What is archived comes once. */
  lemma {:induction false} NotAgain(archived: seq<string>, k: nat, n: string)
    requires Increasing(archived) && k <= |archived| && n in archived[..k]
    ensures n !in archived[k..]
  {
  }

  lemma {:induction false} BeforeIsSafe(before: seq<string>, spool: set<string>, safe: set<string>, listed: seq<string>)
    requires Kept(before, spool, safe) && forall n :: n in listed <==> n in spool && Ready(n)
    ensures forall n :: n in before ==> n in listed || n in safe
    ensures forall n :: n in listed ==> n in before
  {
  }

  lemma {:induction false} SortDistinct(found: seq<string>)
    requires Distinct(found)
    ensures Distinct(Sort(found)) && forall n :: n in Sort(found) <==> n in found
  {
    SortSorts(found);
    forall n ensures n in Sort(found) <==> n in found {
      assert n in Sort(found) <==> n in multiset(Sort(found));
    }
    forall n ensures multiset(Sort(found))[n] <= 1 { DistinctCount(found, n); }
    CountDistinct(Sort(found));
  }

  /** A tar that stops before the end of the list leaves something out. */
  lemma {:induction false} ShortIsLess(segments: seq<string>, k: nat)
    requires Distinct(segments) && k < |segments|
    ensures Elements(segments[..k]) <= Elements(segments) && segments[k] !in Elements(segments[..k])
  {
  }

  class Shipper {
    var spool: set<string>
    var repo: seq<Bundle>
    var marks: seq<string>
    /** Every segment ever archived, in order. */
    var archived: seq<string>
    /** The segments of the bundles that were confirmed, every bundle ever added, and the
        newest cutoff of a forget. */
    ghost var safe: set<string>
    ghost var sent: seq<Sent>
    ghost var floor: Option<int>
    /** What was confirmed in cycles that did not report. */
    ghost var unreported: set<string>

    /** Every archived segment is in the spool or was in a confirmed bundle, every archived
        segment up to a reported mark was in one, and the repository holds all the bundles
        that have not been forgotten. */
    ghost predicate Valid()
      reads this
    {
      && Kept(archived, spool, safe) && Marked(archived, safe, marks)
      && Recorded(safe, sent) && Held(repo, sent, floor) && Whole(sent)
      && Accounted(sent) && Topped(safe, marks, unreported)
    }

    /** Where an archived segment is: nothing is lost but by forgetting. */
    lemma {:induction false} WhereItIs(n: string)
      requires Valid() && n in archived
      ensures n in spool || InBundle(repo, n) || Forgotten(sent, floor, n)
      ensures floor.None? ==> n in spool || InBundle(repo, n)
      // Forgotten means that it was confirmed, in bundles that are all older than a forget's cutoff.
      ensures n in spool || (exists b :: b in repo && n in b.content)
              || (&& floor.Some?
                  && (exists x :: x in sent && x.confirmed && n in x.bundle.content)
                  && forall x :: x in sent && x.confirmed && n in x.bundle.content ==> x.bundle.stamp < floor.value)
    {
      if n !in spool {
        SafeIsHeld(repo, safe, sent, floor, n);
        assert exists x :: x in sent && x.confirmed && n in x.bundle.content;
      }
    }

    /** What a reported mark means: everything archived up to it is in the repository, but
        for what every confirmed bundle with it has been forgotten of. */
    lemma {:induction false} WhatAMarkMeans(mark: string, n: string)
      requires Valid() && mark in marks && n in archived && Le(n, mark)
      ensures InBundle(repo, n) || Forgotten(sent, floor, n)
      ensures (exists b :: b in repo && n in b.content)
              || (&& floor.Some?
                  && (exists x :: x in sent && x.confirmed && n in x.bundle.content)
                  && forall x :: x in sent && x.confirmed && n in x.bundle.content ==> x.bundle.stamp < floor.value)
    {
      assert TrueMark(archived, safe, mark);
      assert exists x :: x in sent && x.confirmed && n in x.bundle.content;
      SafeIsHeld(repo, safe, sent, floor, n);
    }

    constructor ()
      ensures Valid() && spool == {} && repo == [] && marks == [] && archived == [] && safe == {} && sent == []
              && floor == None
      ensures unreported == {}
    {
      spool, repo, marks, archived, safe, sent, floor, unreported := {}, [], [], [], {}, [], None, {};
    }

    /** Postgres archives in name order: an arrival that is not above all before it is not one. */
    method ArchiveOne(arrival: Arrival)
      requires Valid()
      modifies `spool, `archived
      ensures Valid()
      ensures archived == if arrival.Finished? && Ready(arrival.name) && Increasing(old(archived) + [arrival.name])
                          then old(archived) + [arrival.name] else old(archived)
      ensures forall n :: Ready(n) ==> (n in spool <==> n in old(spool) || n in archived[|old(archived)|..])
    {
      var name := arrival.name;
      assert EndsIn(name + ".tmp", ".tmp");
      if arrival.HalfWritten? {
        spool := spool + {name + ".tmp"};
      } else if Ready(name) && Increasing(archived + [name]) {
        ArriveKeeps(archived, spool, safe, marks, name);
        spool := spool - {name + ".tmp"} + {name};
        archived := archived + [name];
      }
    }

    method Archive(arrivals: seq<Arrival>)
      requires Valid()
      modifies `spool, `archived
      ensures Valid() && old(archived) <= archived && (arrivals == [] ==> archived == old(archived))
      ensures forall n :: Ready(n) ==> (n in spool <==> n in old(spool) || n in archived[|old(archived)|..])
    {
      for i := 0 to |arrivals|
        invariant Valid() && old(archived) <= archived && (arrivals == [] ==> archived == old(archived))
        invariant forall n :: Ready(n) ==> (n in spool <==> n in old(spool) || n in archived[|old(archived)|..])
      {
        ghost var was := archived;
        ArchiveOne(arrivals[i]);
        assert archived[|old(archived)|..] == was[|old(archived)|..] + archived[|was|..];
      }
    }

    /** listSegments. */
    method ListSegments(list: Listed) returns (ok: bool, segments: seq<string>)
      ensures ok <==> !list.Breaks?
      ensures list.Nonzero? ==> segments == []
      ensures list.Works? ==> Sorted(segments) && Distinct(segments) && Elements(segments) == ReadyIn(spool)
      // Ready is every file but those still being written, which have a temporary name.
      ensures list.Works? ==>
                forall n :: n in segments <==> n in spool && n != "" && !(|n| >= 4 && n[|n| - 4..] == ".tmp")
    {
      if list.Breaks? { return false, []; }
      if list.Nonzero? { return true, []; }
      var found: seq<string> := [];
      var left := spool;
      while left != {}
        invariant left <= spool && Distinct(found)
        invariant forall n :: n in found <==> n in spool && n !in left && Ready(n)
        decreases left
      {
        var name :| name in left;
        left := left - {name};
        if name != "" && !EndsIn(name, ".tmp") { found := found + [name]; }
      }
      SortSorts(found);
      SortDistinct(found);
      segments := Sort(found);
      forall n ensures n in segments <==> n in found { assert n in segments <==> n in multiset(segments); }
      return true, segments;
    }

    /** shipOne. */
    method ShipOne(c: Cycle) returns (ok: bool)
      requires Valid()
      modifies this
      ensures Valid() && old(archived) <= archived && old(safe) <= safe && floor == old(floor)
      ensures c.afterList == [] && c.afterShip == [] && c.afterRemove == [] ==> archived == old(archived)
      // Nothing ready leaves the spool unless it is in a confirmed bundle, and nothing at all on an error.
      ensures forall n :: n in old(spool) && Ready(n) ==> n in spool || (ok && n in safe)
      // An error confirms and reports nothing.
      ensures !ok ==> safe == old(safe) && marks == old(marks) && unreported == old(unreported)
      // Success on a listing ships everything that was ready when it started, and removes all of it that rm gets to.
      ensures ok && c.list.Works? ==> safe == old(safe) + ReadyIn(old(spool))
      ensures ok && c.list.Works? ==> forall n :: n in ReadyIn(old(spool)) ==> (n in spool <==> n in c.survives)
      ensures forall n :: n in ReadyIn(spool) ==> n in old(spool) || n in archived[|old(archived)|..]
      // It reports the greatest of what was ready, unless the process dies first or the report is lost.
      ensures ok && c.list.Works? && ReadyIn(old(spool)) != {} ==>
                if c.reported
                then Reports(old(marks), marks, ReadyIn(old(spool)), old(safe), old(unreported))
                    && unreported == old(unreported)
                else marks == old(marks) && unreported == old(unreported) + ReadyIn(old(spool))
      ensures ok && c.list.Works? && ReadyIn(old(spool)) != {} && c.reported ==>
                && |marks| == |old(marks)| + 1 && marks[..|old(marks)|] == old(marks)
                && marks[|old(marks)|] in ReadyIn(old(spool))
                && forall n :: n in ReadyIn(old(spool)) ==> Le(n, marks[|old(marks)|])
      ensures ok && (!c.list.Works? || ReadyIn(old(spool)) == {}) ==>
              marks == old(marks) && unreported == old(unreported)
      // At most one bundle is added, and it holds all that was ready exactly if tar did not stop short of it.
      ensures (repo == old(repo) && sent == old(sent))
              || exists x ::
                   Adds(x, c, ReadyIn(old(spool)), old(archived), ok) && repo == old(repo) + [x.bundle]
                   && sent == old(sent) + [x]
      ensures c.list.Works? && c.creds && c.init && c.tarStops.None? && c.fate.Saved? ==> ok
      ensures c.list.Works? && c.creds && c.init && !c.fate.Refused? && ReadyIn(old(spool)) != {} ==>
              |repo| == |old(repo)| + 1
    {
      hide Kept, Held, Marked, Recorded, Whole, Ready, Sorted, Le, ReadyIn, Distinct, Accounted, Topped, Reports;
      var segments;
      ok, segments := ListSegments(c.list);
      ghost var before, spool0, safe0 := archived, spool, safe;
      ReadyWhere(before, spool0, safe0);
      if !ok { return; }
      Archive(c.afterList);
      ReadyStays(spool0, spool, archived[|before|..]);
      if |segments| == 0 {
        assert safe + {} == safe;
        return true;
      }
      assert segments[0] in Elements(segments);
      if !c.creds { return false; }
      if !c.init { return false; }
      ok := Send(segments, c, before, spool0);
      ReadyStays(spool0, spool, archived[|before|..]);
      if !ok { return; }
      Finish(segments, c, before, spool0);
    }

    /** tar into restic, side by side with the archiver. */
    method Send(segments: seq<string>, c: Cycle, ghost before: seq<string>,
                ghost spool0: set<string>) returns (ok: bool)
      requires Valid() && |segments| > 0 && Distinct(segments) && before <= archived
      requires Kept(before, spool0, safe) && Elements(segments) == ReadyIn(spool0)
      requires forall n :: Ready(n) ==> (n in spool <==> n in spool0 || n in archived[|before|..])
      modifies `repo, `spool, `archived, `sent
      ensures Kept(archived, spool, safe) && Marked(archived, safe, marks) && old(archived) <= archived
      ensures c.afterShip == [] ==> archived == old(archived)
      ensures Held(repo, sent, floor) && Whole(sent) && Accounted(sent)
              && Recorded(if ok then safe + Elements(segments) else safe, sent)
      ensures forall n :: Ready(n) ==> (n in spool <==> n in spool0 || n in archived[|before|..])
      ensures ok <==> c.tarStops.None? && c.fate.Saved?
      ensures if c.fate.Refused? then repo == old(repo) && sent == old(sent)
              else exists x ::
                     Adds(x, c, Elements(segments), before, ok) && repo == old(repo) + [x.bundle]
                     && sent == old(sent) + [x]
    {
      hide Kept, Held, Marked, Recorded, Whole, Ready, Sorted, Le, Distinct, Accounted;
      var short := c.tarStops.Some? && c.tarStops.value < |segments|;
      var written := if short then segments[..c.tarStops.value] else segments;
      ok := c.tarStops.None? && c.fate.Saved?;
      ghost var now := archived;
      Archive(c.afterShip);
      assert archived[|before|..] == now[|before|..] + archived[|now|..];
      if !c.fate.Refused? {
        ghost var x := Sent(Bundle(c.stamp, Elements(written)), Elements(segments), ok, before);
        DistinctSize(segments);
        if short { ShortIsLess(segments, c.tarStops.value); }
        SentMore(repo, safe, sent, floor, x);
        AccountedMore(before, spool0, safe, sent, x);
        repo := repo + [Bundle(c.stamp, Elements(written))];
        sent := sent + [x];
        assert Adds(x, c, Elements(segments), before, ok);
      }
    }

    /** Confirmed: now delete exactly those, and report. */
    method Finish(segments: seq<string>, c: Cycle, ghost before: seq<string>, ghost spool0: set<string>)
      requires |segments| > 0 && Sorted(segments) && Elements(segments) == ReadyIn(spool0) && before <= archived
      requires Kept(archived, spool, safe) && Marked(archived, safe, marks) && Topped(safe, marks, unreported)
      requires Kept(before, spool0, safe)
      requires Held(repo, sent, floor) && Whole(sent) && Accounted(sent) && Recorded(safe + Elements(segments), sent)
      requires forall n :: Ready(n) ==> (n in spool <==> n in spool0 || n in archived[|before|..])
      modifies `spool, `safe, `archived, `marks, `unreported
      ensures Valid() && old(archived) <= archived && safe == old(safe) + ReadyIn(spool0)
      ensures c.afterRemove == [] ==> archived == old(archived)
      ensures forall n :: n in ReadyIn(spool0) ==> (n in spool <==> n in c.survives)
      ensures forall n :: n in ReadyIn(spool) ==> n in spool0 || n in archived[|before|..]
      ensures if c.reported
              then Reports(old(marks), marks, ReadyIn(spool0), old(safe), old(unreported))
                  && unreported == old(unreported)
              else marks == old(marks) && unreported == old(unreported) + ReadyIn(spool0)
      ensures c.reported ==>
                && |marks| == |old(marks)| + 1 && marks[..|old(marks)|] == old(marks)
                && marks[|old(marks)|] in ReadyIn(spool0)
                && forall n :: n in ReadyIn(spool0) ==> Le(n, marks[|old(marks)|])
    {
      hide Kept, Held, Marked, Recorded, Whole, Ready, Sorted, Le, Accounted, Topped, Reports, Increasing;
      ghost var safe0, marks0, unreported0, spool1 := safe, marks, unreported, spool;
      ListedAre(segments, spool0);
      KeptIncreases(archived, spool, safe);
      ConfirmKeeps(archived, spool, safe, marks, Elements(segments), c.survives);
      ToppedMore(safe, marks, unreported, ReadyIn(spool0));
      safe := safe + Elements(segments);
      spool := spool - (Elements(segments) - c.survives);
      unreported := unreported + ReadyIn(spool0);
      ghost var now := archived;
      Archive(c.afterRemove);
      KeptIncreases(archived, spool, safe);
      RemovedStay(before, now, archived, spool0, spool1, spool, safe0, c.survives);
      if c.reported {
        BeforeIsSafe(before, spool0, safe0, segments);
        LastIsTrueMark(before, archived, segments, safe);
        LastIsGreatest(before, spool0, safe0, segments);
        var mark := segments[|segments| - 1];
        assert Greatest(mark, ReadyIn(spool0)) by { ReadyWhere(before, spool0, safe0); }
        ReportsMark(now, safe0, marks0, unreported0, ReadyIn(spool0), mark);
        MarkedMore(archived, safe, marks, mark);
        marks := marks + [mark];
        unreported := unreported0;
      }
    }

    /** resticForgetWAL: drops the bundles older than the cutoff; None where nothing is to
        be kept by days, or the call fails. */
    method Forget(cutoff: Option<int>)
      requires Valid()
      modifies `repo, `floor
      ensures Valid()
      ensures cutoff.None? ==> repo == old(repo) && floor == old(floor)
      ensures cutoff.Some? ==>
                floor == Raised(old(floor), cutoff.value)
                && forall b :: b in repo <==> b in old(repo) && b.stamp >= cutoff.value
    {
      if cutoff.None? { return; }
      hide Kept, Marked, Recorded, Whole;
      ForgetKeeps(repo, sent, floor, cutoff.value);
      RecentIs(repo, cutoff.value);
      var kept: seq<Bundle> := [];
      for i := 0 to |repo|
        invariant kept == Recent(repo[..i], cutoff.value)
      {
        assert repo[..i + 1][..i] == repo[..i];
        if repo[i].stamp >= cutoff.value { kept := kept + [repo[i]]; }
      }
      assert repo[..|repo|] == repo;
      repo := kept;
      floor := Raised(floor, cutoff.value);
    }

    /** Cycles and forgets in any order. */
    method Run(acts: seq<Act>)
      requires Valid()
      modifies this
      ensures Valid() && old(archived) <= archived && old(safe) <= safe
      // Without a forget nothing confirmed is ever missing.
      ensures (forall i :: 0 <= i < |acts| ==> acts[i].Ship?) ==> floor == old(floor)
      // The floor is the cutoff of one of the forgets.
      ensures floor == old(floor) || exists i :: 0 <= i < |acts| && acts[i].Forget? && acts[i].cutoff == floor
    {
      for i := 0 to |acts|
        invariant Valid() && old(archived) <= archived && old(safe) <= safe
        invariant (forall k :: 0 <= k < i ==> acts[k].Ship?) ==> floor == old(floor)
        invariant floor == old(floor) || exists k :: 0 <= k < i && acts[k].Forget? && acts[k].cutoff == floor
      {
        match acts[i] {
          case Ship(c) => var _ := ShipOne(c);
          case Forget(cutoff) => Forget(cutoff);
        }
      }
    }
  }

  datatype Act = Ship(cycle: Cycle) | Forget(cutoff: Option<int>)

  predicate Greatest(mark: string, names: set<string>) {
    mark in names && forall n :: n in names ==> Le(n, mark)
  }

  /** What a cycle adds: all that was ready exactly if tar did not stop short of it. */
  predicate Adds(x: Sent, c: Cycle, ready: set<string>, archived: seq<string>, confirmed: bool) {
    && x.bundle.stamp == c.stamp && x.ready == ready && x.confirmed == confirmed && x.archived == archived
    && x.bundle.content <= ready
    && (x.bundle.content == ready <==> c.tarStops.None? || c.tarStops.value >= |ready|)
    && (c.tarStops == Some(0) ==> x.bundle.content == {})
  }

  lemma {:induction false} MarkedMore(archived: seq<string>, safe: set<string>, marks: seq<string>, mark: string)
    requires Marked(archived, safe, marks) && TrueMark(archived, safe, mark)
    ensures Marked(archived, safe, marks + [mark])
  {
  }

  lemma {:induction false} ReadyWhere(archived: seq<string>, spool: set<string>, safe: set<string>)
    requires Kept(archived, spool, safe)
    ensures forall n :: n in ReadyIn(spool) <==> n in spool && Ready(n)
    ensures forall n :: n in ReadyIn(spool) ==> n in archived
  {
  }

  lemma {:induction false} ReadyStays(spool0: set<string>, spool: set<string>, more: seq<string>)
    requires forall n :: Ready(n) ==> (n in spool <==> n in spool0 || n in more)
    ensures forall n :: n in spool0 && Ready(n) ==> n in spool
    ensures forall n :: n in ReadyIn(spool) ==> n in spool0 || n in more
  {
  }

  /** What rm took does not come back: what arrives later is new. */
  lemma {:induction false} RemovedStay(before: seq<string>, now: seq<string>, archived: seq<string>,
                                       spool0: set<string>, spool1: set<string>, spool: set<string>,
                                       safe0: set<string>, survives: set<string>)
    requires before <= now <= archived && Increasing(archived) && Kept(before, spool0, safe0)
    requires forall n :: Ready(n) ==> (n in spool1 <==> n in spool0 || n in now[|before|..])
    requires forall n :: Ready(n) ==>
             (n in spool <==> n in spool1 - (ReadyIn(spool0) - survives) || n in archived[|now|..])
    ensures forall n :: n in ReadyIn(spool0) ==> (n in spool <==> n in survives)
    ensures forall n :: n in ReadyIn(spool) ==> n in spool0 || n in archived[|before|..]
  {
    hide Ready;
    assert archived[..|now|] == now && archived[..|before|] == before;
    assert archived[|before|..] == now[|before|..] + archived[|now|..];
    ReadyWhere(before, spool0, safe0);
    forall n | n in ReadyIn(spool0) ensures n in spool <==> n in survives {
      NotAgain(archived, |now|, n);
    }
    assert forall n :: n in ReadyIn(spool) ==> Ready(n) && n in spool;
  }

  lemma {:induction false} KeptIncreases(archived: seq<string>, spool: set<string>, safe: set<string>)
    requires Kept(archived, spool, safe)
    ensures Increasing(archived)
  {
  }

  lemma {:induction false} ListedAre(segments: seq<string>, spool: set<string>)
    requires Elements(segments) == ReadyIn(spool)
    ensures forall n :: n in segments <==> n in spool && Ready(n)
  {
    assert forall n :: n in segments <==> n in Elements(segments);
  }

  // ---- what the control plane keeps of the marks: SetWALStatus of cp/internal/store/pitr.go ----

  /** A reported mark and the time the control plane gave it. */
  datatype Report = Report(segment: string, at: int)

  /** The row after the reports: a report replaces it only if it is newer by its time. */
  function Status(reports: seq<Report>): Option<Report> {
    if reports == [] then None
    else
      var was, r := Status(reports[..|reports| - 1]), reports[|reports| - 1];
      if was.Some? && r.at <= was.value.at then was else Some(r)
  }

  /** The report is newer than all before it. */
  predicate Newer(reports: seq<Report>, i: nat) {
    i < |reports| && forall k :: 0 <= k < i ==> reports[k].at < reports[i].at
  }

  predicate NewerRise(reports: seq<Report>) {
    forall i, j :: 0 <= i < j < |reports| && Newer(reports, i) && Newer(reports, j) ==>
      Le(reports[i].segment, reports[j].segment)
  }

  /** The segment of the row never moves back. */
  predicate Forward(reports: seq<Report>) {
    forall i, j :: 0 < i <= j <= |reports| ==>
      var a, b := Status(reports[..i]), Status(reports[..j]);
      a.Some? && b.Some? && Le(a.value.segment, b.value.segment)
  }

  /** The row holds the newest report, the first of those with its time: its time only moves forward. */
  lemma {:induction false} StatusIsNewest(reports: seq<Report>) returns (k: nat)
    requires reports != []
    ensures Newer(reports, k) && Status(reports) == Some(reports[k])
    ensures forall r :: r in reports ==> r.at <= reports[k].at
  {
    var init := reports[..|reports| - 1];
    k := |init|;
    if init != [] {
      var m := StatusIsNewest(init);
      if reports[k].at <= init[m].at { k := m; }
    }
  }

  lemma {:induction false} NewerIsKept(reports: seq<Report>, i: nat)
    requires Newer(reports, i)
    ensures Status(reports[..i + 1]) == Some(reports[i])
  {
    var k := StatusIsNewest(reports[..i + 1]);
    assert reports[i] in reports[..i + 1];
  }

  /** The promise that the mark only moves forward holds of its time always, and of its
      segment exactly if the segments of those that were newer on arrival never fall. */
  lemma {:induction false} ForwardIff(reports: seq<Report>)
    ensures Forward(reports) <==> NewerRise(reports)
  {
    hide Forward, NewerRise;
    if Forward(reports) { NewerRises(reports); }
    if NewerRise(reports) { MovesForward(reports); }
  }

  lemma {:induction false} NewerRises(reports: seq<Report>)
    requires Forward(reports)
    ensures NewerRise(reports)
  {
    hide Le, Status;
    forall i, j | 0 <= i < j < |reports| && Newer(reports, i) && Newer(reports, j)
      ensures Le(reports[i].segment, reports[j].segment)
    {
      NewerIsKept(reports, i);
      NewerIsKept(reports, j);
    }
  }

  lemma {:induction false} MovesForward(reports: seq<Report>)
    requires NewerRise(reports)
    ensures Forward(reports)
  {
    forall i, j | 0 < i <= j <= |reports|
      ensures var a, b := Status(reports[..i]), Status(reports[..j]);
              a.Some? && b.Some? && Le(a.value.segment, b.value.segment)
    {
      MovesOn(reports, i, j);
    }
  }

  lemma {:induction false} MovesOn(reports: seq<Report>, i: nat, j: nat)
    requires NewerRise(reports) && 0 < i <= j <= |reports|
    ensures var a, b := Status(reports[..i]), Status(reports[..j]);
            a.Some? && b.Some? && Le(a.value.segment, b.value.segment)
  {
    hide Le, Status;
    var k := KeptAt(reports, i);
    var l := KeptAt(reports, j);
    if k == l {
      Reflexive(reports[k].segment);
    } else {
      assert reports[k].at <= reports[l].at;
    }
  }

  /** What the row holds after the first `i` reports. */
  lemma {:induction false} KeptAt(reports: seq<Report>, i: nat) returns (k: nat)
    requires 0 < i <= |reports|
    ensures k < i && Newer(reports, k) && Status(reports[..i]) == Some(reports[k])
    ensures forall m :: 0 <= m < i ==> reports[m].at <= reports[k].at
  {
    hide Status;
    k := StatusIsNewest(reports[..i]);
    forall m | 0 <= m < i ensures reports[m].at <= reports[k].at { assert reports[m] in reports[..i]; }
  }

  /** Marks can fall: of two segments rm leaves the lower behind, and the next cycle ships
      and reports just that one. */
  method MarksCanFall(a: string, b: string) returns (marks: seq<string>)
    requires Ready(a) && Ready(b) && Lt(a, b)
    ensures marks == [b, a]
  {
    hide Kept, Held, Marked, Recorded, Whole, Accounted, Topped, Covered, Ready, Le;
    var s := TwoSegments(a, b);
    var _ := s.ShipOne(Cycle(Works, true, true, None, Saved, 1, {a}, true, [], [], []));
    assert s.marks[0] == b by { GreatestOfTwo(a, b, s.marks[0]); }
    assert ReadyIn(s.spool) == {a};
    var _ := s.ShipOne(Cycle(Works, true, true, None, Saved, 2, {}, true, [], [], []));
    marks := s.marks;
  }

  /** Of those two the second arrives later, and the control plane's mark moves back. */
  lemma {:induction false} MovesBack(a: string, b: string, t: int, u: int)
    requires Lt(a, b) && t < u
    ensures !Forward([Report(b, t), Report(a, u)])
  {
    var reports := [Report(b, t), Report(a, u)];
    ForwardIff(reports);
    assert Newer(reports, 0) && Newer(reports, 1);
    if Le(b, a) { Antisymmetric(a, b); }
  }

  lemma {:induction false} GreatestOfTwo(a: string, b: string, mark: string)
    requires Greatest(mark, {a, b}) && Lt(a, b)
    ensures mark == b
  {
    if mark == a { Antisymmetric(a, b); }
  }

  method TwoSegments(a: string, b: string) returns (s: Shipper)
    requires Ready(a) && Ready(b) && Lt(a, b)
    ensures fresh(s) && s.Valid() && s.marks == [] && s.archived == [a, b] && ReadyIn(s.spool) == {a, b}
  {
    hide Kept, Held, Marked, Recorded, Whole, Accounted, Topped, Ready, Le;
    s := new Shipper();
    assert s.archived + [a] == [a];
    s.ArchiveOne(Finished(a));
    assert s.archived + [b] == [a, b];
    assert s.archived[0..] == [a];
    s.ArchiveOne(Finished(b));
    assert s.archived[1..] == [b];
    assert forall n :: n in ReadyIn(s.spool) <==> Ready(n) && n in s.spool;
  }
}
