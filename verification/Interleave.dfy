/** The driver's locked operations interleaved with the reconcile loop's unlocked snapshot,
    with swaps, which take no lock, and with whatever else happens on the host. */
module Interleave {
  import opened Wrappers
  import opened Docker
  import opened Rollout
  import opened Driver

  /** What happens next. A reconcile pass is a Snapshot and then a Repair of each of its
      names, with anything in between. Record and Drop are the transactions in which a swap,
      without the lock, records its generation and drops older ones. Place is a swap or the
      proxy creating or starting a container; Outside a container that exits, comes back,
      changes or disappears. */
  datatype Act = Snapshot | Repair(name: string) | Collect(doc: seq<Work>) | Apply(spec: Spec) | Purge
               | Record(gen: Spec) | Drop(name: string)
                | Place(name: string, c: Container) | Outside(name: string, left: Option<Container>)

  datatype State = State(world: World, desired: map<string, Spec>, snapshot: map<string, Spec>)

  /** The act asks for this container. */
  predicate Asks(act: Act, n: string) {
    match act
    case Apply(spec) => spec.name == n
    case Record(gen) => gen.name == n
    case Place(name, _) => name == n
    case _ => false
  }

  function Disturbed(w: World, name: string, c: Option<Container>): World {
    if name !in w then w else if c.Some? then w[name := c.value] else w - {name}
  }

  ghost predicate Step(act: Act, s: State, t: State, serverId: string) {
    match act
    case Snapshot => t.world == s.world && t.desired == s.desired && t.snapshot in {s.desired, map[]}
    case Repair(n) => && t.desired == s.desired && t.snapshot == s.snapshot && OnlyAt(s.world, t.world, n)
                      && (n !in s.desired || n !in s.snapshot ==> t.world == s.world)
    case Collect(doc) => t.snapshot == s.snapshot && Collected(doc, s.world, t.world, serverId)
        && Pruned(s.desired, t.desired)
    case Apply(spec) => && t.snapshot == s.snapshot && OnlyAt(s.world, t.world, spec.name)
                        && (t.desired == s.desired
                            || (t.desired == s.desired[spec.name := spec] && Satisfied(spec, t.world)))
    case Purge => t.snapshot == s.snapshot && Purged(s.world, t.world, serverId) && Pruned(s.desired, t.desired)
    case Record(gen) => t == s || t == s.(desired := s.desired[gen.name := gen])
    case Drop(n) => t == s || t == s.(desired := s.desired - {n})
    case Place(n, c) => t == s.(world := s.world[n := c])
    case Outside(n, c) => t == s.(world := Disturbed(s.world, n, c))
  }

  ghost predicate Link(acts: seq<Act>, trace: seq<State>, i: nat, serverId: string) {
    i < |acts| && i + 1 < |trace| && Step(acts[i], trace[i], trace[i + 1], serverId)
  }

  ghost predicate IsRun(acts: seq<Act>, trace: seq<State>, serverId: string) {
    |trace| == |acts| + 1 && forall i: nat :: i < |acts| ==> Link(acts, trace, i, serverId)
  }

  /** One act, done by the driver. */
  method Do(d: Driver, act: Act, snapshot: map<string, Spec>) returns (snapshot': map<string, Spec>)
    requires Keyed(d.desired) && Keyed(snapshot)
    modifies d.dk, d`desired
    ensures Keyed(d.desired) && Keyed(snapshot')
    ensures Step(act, State(old(d.dk.world), old(d.desired), snapshot), State(d.dk.world, d.desired, snapshot'),
            d.serverId)
  {
    hide Collected, Purged, Satisfied, Names;
    snapshot' := snapshot;
    match act {
      case Snapshot =>
        var _, all := d.AllDesired();
        snapshot' := all;
      case Repair(n) =>
        if n in snapshot { d.ReconcileOne(n, snapshot[n]); }
      case Collect(doc) =>
        d.Gc(doc);
      case Apply(spec) =>
        var _ := d.ApplyContainer(spec);
      case Purge =>
        var _ := d.RemoveManagedContainers();
      case Record(gen) =>
        var _ := d.PutDesired(gen.name, gen);
      case Drop(n) =>
        var _ := d.DeleteDesired(n);
      case Place(n, c) =>
        d.dk.world := d.dk.world[n := c];
      case Outside(n, c) =>
        d.dk.world := Disturbed(d.dk.world, n, c);
    }
  }

  /** Any sequence of acts, with any calls failing. */
  method Run(d: Driver, acts: seq<Act>) returns (ghost trace: seq<State>)
    requires Keyed(d.desired)
    modifies d.dk, d`desired
    ensures IsRun(acts, trace, d.serverId)
    ensures trace[0] == State(old(d.dk.world), old(d.desired), map[])
    ensures trace[|acts|].world == d.dk.world && trace[|acts|].desired == d.desired
  {
    hide Step;
    var snapshot: map<string, Spec> := map[];
    trace := [State(d.dk.world, d.desired, snapshot)];
    for i := 0 to |acts|
      invariant Keyed(d.desired) && Keyed(snapshot)
      invariant |trace| == i + 1 && trace[0] == State(old(d.dk.world), old(d.desired), map[])
      invariant trace[i] == State(d.dk.world, d.desired, snapshot)
      invariant forall k: nat :: k < i ==> Link(acts, trace, k, d.serverId)
    {
      ghost var before := trace;
      snapshot := Do(d, acts[i], snapshot);
      trace := trace + [State(d.dk.world, d.desired, snapshot)];
      forall k: nat | k <= i ensures Link(acts, trace, k, d.serverId) {
        if k < i { assert Link(acts, before, k, d.serverId); }
      }
    }
  }

  /** No resurrection: a container that is gone and not desired stays both, through every
      reconcile from however old a snapshot, until an act asks for it. */
  lemma {:induction false} GoneStaysGone(acts: seq<Act>, trace: seq<State>, serverId: string, i: nat, j: nat, n: string)
    requires IsRun(acts, trace, serverId) && i <= j <= |acts|
    requires n !in trace[i].world && n !in trace[i].desired
    requires forall k :: i <= k < j ==> !Asks(acts[k], n)
    ensures n !in trace[j].world && n !in trace[j].desired
    decreases j
  {
    if i < j {
      GoneStaysGone(acts, trace, serverId, i, j - 1, n);
      assert Link(acts, trace, j - 1, serverId) && !Asks(acts[j - 1], n);
    }
  }

  /** A reconcile brings a container into being only while its name is desired. */
  lemma {:induction false} RepairCreatesOnlyDesired(acts: seq<Act>, trace: seq<State>, serverId: string, i: nat,
                                                    n: string)
    requires IsRun(acts, trace, serverId) && i < |acts| && acts[i].Repair?
    requires n !in trace[i].world && n in trace[i + 1].world
    ensures n in trace[i].desired && n in trace[i].snapshot && n == acts[i].name
  {
    assert Link(acts, trace, i, serverId);
  }

  /** What is on the host was there or desired at the start, or has been asked for since. */
  lemma {:induction false} EverythingWasAskedFor(acts: seq<Act>, trace: seq<State>, serverId: string, j: nat, n: string)
    requires IsRun(acts, trace, serverId) && j <= |acts| && n in trace[j].world
    ensures n in trace[0].world || n in trace[0].desired || exists k :: 0 <= k < j && Asks(acts[k], n)
  {
    if n !in trace[0].world && n !in trace[0].desired && forall k :: 0 <= k < j ==> !Asks(acts[k], n) {
      GoneStaysGone(acts, trace, serverId, 0, j, n);
    }
  }

  /** A repair that can work leaves its container as the record has it exactly when the
      record is still the one of the snapshot. */
  method RepairsWhatTheSnapshotHas(d: Driver, snapshot: map<string, Spec>, name: string)
    requires Keyed(d.desired) && Keyed(snapshot) && name in snapshot && name in d.desired
    requires d.dk.script == []
    requires Satisfied(snapshot[name], d.dk.world) || (d.Provides(snapshot[name]) && d.Seeds(snapshot[name]))
    modifies d.dk
    ensures Satisfied(d.desired[name], d.dk.world) <==> snapshot[name] == d.desired[name]
  {
    d.ReconcileOne(name, snapshot[name]);
  }

  /** An update between a snapshot and its repair is undone: the container ends as the
      stale spec has it although the record is the new one. */
  method StaleSnapshotRegresses(stale: Spec, update: Spec) returns (w: World, desired: map<string, Spec>)
    requires stale.name == update.name && stale != update && stale.secretRefs == [] == update.secretRefs
    ensures desired == map[stale.name := update]
    ensures Satisfied(stale, w) && !Satisfied(update, w)
  {
    var dk := new Daemon(map[], []);
    var d := new Driver(dk, "", false, map[], {}, map[stale.name := stale]);
    var _, snapshot := d.AllDesired();
    assert d.Provides(update) && d.Seeds(update);
    var ok := d.ApplyContainer(update);
    assert ok;
    assert d.Provides(stale) && d.Seeds(stale);
    d.ReconcileOne(stale.name, snapshot[stale.name]);
    return d.dk.world, d.desired;
  }
}
