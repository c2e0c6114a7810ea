/** agent/internal/container/rollout.go: the blue-green and the recreate swap. */
module Rollout {
  import opened Wrappers
  import opened Docker

  /** The payload of deploy.rollout and deploy.recreate; `portless` is a probe of type "none". */
  datatype RolloutSpec = RolloutSpec(container: Spec, generation: string, portless: bool)

  /** One look of the health gate at the container: whether it still runs, has an address
      and answers the probe, and whether the deadline or the context ended the wait after. */
  datatype Look = Look(running: bool, hasAddress: bool, healthy: bool, over: bool)

  /** What one swap meets beyond the daemon: the post-start hook and the gate's looks. */
  datatype Swap = Swap(postStart: bool, looks: seq<Look>)

  function RolloutName(base: string, generation: string): string {
    if generation == "" then base else base + "-" + generation
  }

  function GenSpec(spec: RolloutSpec): Spec {
    spec.container.(name := RolloutName(spec.container.name, spec.generation))
  }

  function GroupOf(s: Spec): Group {
    Group(s.resourceId, s.service)
  }

  const LabelService := "sigmahub.service"
  const LabelServerID := "sigmahub.serverId"

  function Label(s: Spec, key: string, own: string): string {
    if own != "" then own else if key in s.labels then s.labels[key] else ""
  }

  /** The labels buildCreateBody stamps: the driver's own win, but the service and the
      server id are stamped only where they are not empty, and then the spec's stay. */
  function Fresh(s: Spec, serverId: string): Container {
    Container(false, true, s.resourceId, Label(s, LabelService, s.service),
              Label(s, LabelServerID, serverId), Some(s))
  }

  /** The spec's own labels do not put it in another service's group. */
  predicate KeepsItsGroup(s: Spec) {
    s.service != "" || LabelService !in s.labels || s.labels[LabelService] == ""
  }

  /** A created container is in the group its swap drains exactly when it keeps its group:
      a spec without a service but with a service label of its own starts outside it. */
  lemma {:induction false} FreshIsInItsGroup(s: Spec, serverId: string)
    ensures InGroup(Fresh(s, serverId), GroupOf(s)) <==> KeepsItsGroup(s)
  {
    assert s.service == "" && LabelService in s.labels ==> Fresh(s, serverId).service == s.labels[LabelService];
  }

  /** Two generations of one container never share a name. */
  lemma {:induction false} GenerationsApart(base: string, g: string, h: string)
    ensures RolloutName(base, g) == RolloutName(base, h) <==> g == h
    ensures RolloutName(base, "") == base && (g != "" ==> RolloutName(base, g) == base + "-" + g)
  {
    if g != "" && h != "" {
      assert RolloutName(base, g)[|base| + 1..] == g && RolloutName(base, h)[|base| + 1..] == h;
    }
    if g != "" { assert |RolloutName(base, g)| > |base|; }
    if h != "" { assert |RolloutName(base, h)| > |base|; }
  }

  /** The labels a created container has: the driver's own, or where those are empty the spec's. */
  lemma {:induction false} FreshLabels(s: Spec, serverId: string)
    ensures var c := Fresh(s, serverId);
            && !c.running && c.managed && c.resource == s.resourceId && c.hash == Some(s)
            && (s.service != "" ==> c.service == s.service)
            && (s.service == "" && "sigmahub.service" in s.labels ==> c.service == s.labels["sigmahub.service"])
            && (s.service == "" && "sigmahub.service" !in s.labels ==> c.service == "")
            && (serverId != "" ==> c.owner == serverId)
            && (serverId == "" && "sigmahub.serverId" in s.labels ==> c.owner == s.labels["sigmahub.serverId"])
            && (serverId == "" && "sigmahub.serverId" !in s.labels ==> c.owner == "")
  {
  }

  // ---- what a swap must not break ----

  ghost predicate Serving(w: World, g: Group) {
    exists n :: RunsIn(w, n, g)
  }

  predicate RunsIn(w: World, n: string, g: Group) {
    n in w && InGroup(w[n], g) && w[n].running
  }

  /** A container that carries the spec's hash carries the spec's group. */
  predicate Genuine(w: World, s: Spec) {
    s.name in w && w[s.name].hash == Some(s) ==> InGroup(w[s.name], GroupOf(s))
  }

  ghost predicate AtMostOne(w: World, g: Group) {
    forall m, n :: RunsIn(w, m, g) && RunsIn(w, n, g) ==> m == n
  }

  /** `n` is one of the generations to drain. */
  predicate Older(w: World, n: string, g: Group, keep: string) {
    n in w && InGroup(w[n], g) && n != keep
  }

  /** Between `w0` and `w` older generations may have been stopped or removed, nothing else. */
  ghost predicate Trimmed(w0: World, w: World, g: Group, keep: string) {
    && (forall n :: n in w ==>
        n in w0 && (w[n] == w0[n] || (Older(w0, n, g, keep) && w[n] == w0[n].(running := false))))
    && (forall n :: n in w0 && !Older(w0, n, g, keep) ==> n in w)
  }

  /** `w` is `w0` but for the container `name`. */
  ghost predicate OnlyAt(w0: World, w: World, name: string) {
    forall n :: n != name ==> (n in w <==> n in w0) && (n in w ==> w[n] == w0[n])
  }

  ghost predicate Happened(log: seq<Entry>, from: nat, call: Call, f: Fault) {
    exists i :: from <= i < |log| && log[i].call == call && log[i].fault == f
  }

  /** Every change from `from` on is to an older generation, and only trims. */
  ghost predicate Drains(log: seq<Entry>, from: nat, w0: World, g: Group, keep: string) {
    forall i :: from <= i < |log| ==> Trimmed(w0, log[i].after, g, keep) && IsDrain(log[i].call, keep)
  }

  predicate IsDrain(call: Call, keep: string) {
    (call.Stop? || call.Remove?) && call.name != keep
  }

  /** Every removal comes right after a stop of the same container. */
  ghost predicate Graceful(log: seq<Entry>, from: nat) {
    forall i :: from <= i < |log| && log[i].call.Remove? ==> i > from && log[i - 1].call == Stop(log[i].call.name)
  }

  /** What a drain has left of `n`: it is there exactly if its removal was lost, and runs on
      exactly if it ran and its stop was lost as well. */
  ghost predicate Left(w0: World, w: World, log: seq<Entry>, from: nat, n: string) {
    && n in w0
    && (n in w <==> Happened(log, from, Remove(n), Lost))
    && (n in w ==> w[n] == w0[n].(running := w0[n].running && Happened(log, from, Stop(n), Lost)))
  }

  /** No call from `from` on was about `n`. */
  ghost predicate Unmentioned(log: seq<Entry>, from: nat, n: string) {
    forall i :: from <= i < |log| ==> log[i].call.name != n
  }

  lemma {:induction false} TrimMore(w0: World, w: World, g: Group, keep: string, n: string)
    requires Trimmed(w0, w, g, keep) && Older(w0, n, g, keep)
    ensures Trimmed(w0, Set(w, n, false), g, keep)
    ensures Trimmed(w0, w - {n}, g, keep)
  {
  }

  lemma {:induction false} TrimServes(w0: World, w: World, g: Group, keep: string)
    requires Trimmed(w0, w, g, keep) && RunsIn(w0, keep, g)
    ensures RunsIn(w, keep, g) && Serving(w, g)
  {
  }

  /** The log ends with the world it led to, or nothing has changed. */
  ghost predicate Tells(log0: seq<Entry>, w0: World, log: seq<Entry>, w: World) {
    log0 <= log && (if |log| == |log0| then w == w0 else log[|log| - 1].after == w)
  }

  /** drainOld: stops then removes every older generation, swallowing their errors; only
      a failing list is an error, and then nothing was touched. */
  method DrainOld(dk: Daemon, g: Group, keep: string) returns (ok: bool)
    modifies dk
    ensures old(dk.log) <= dk.log && Drains(dk.log, |old(dk.log)|, old(dk.world), g, keep)
    ensures Trimmed(old(dk.world), dk.world, g, keep)
    ensures ok <==> old(dk.script) == [] || old(dk.script)[0] == Fine
    ensures !ok ==> dk.world == old(dk.world) && dk.log == old(dk.log)
    ensures Graceful(dk.log, |old(dk.log)|) && Tells(old(dk.log), old(dk.world), dk.log, dk.world)
    ensures dk.log == old(dk.log) <==> !ok || forall n :: !Older(old(dk.world), n, g, keep)
    ensures ok ==> forall n :: Older(old(dk.world), n, g, keep) ==>
            Left(old(dk.world), dk.world, dk.log, |old(dk.log)|, n)
    ensures old(dk.script) == [] ==>
            ok && dk.script == [] && forall n :: Older(old(dk.world), n, g, keep) ==> n !in dk.world
  {
    NoDrains(dk.log, dk.world, g, keep);
    hide Graceful, Drains, Left, Trimmed, Lists;
    var list;
    ok, list := dk.ContainerList();
    if !ok { return; }
    OlderIsListed(list, dk.world, g, keep);
    DrainListed(dk, list, g, keep);
  }

  lemma {:induction false} OlderIsListed(list: seq<Listing>, w: World, g: Group, keep: string)
    requires Lists(list, w)
    ensures forall n :: Older(w, n, g, keep) ==> exists k :: 0 <= k < |list| && list[k].name == n
    ensures NoneOlder(list, |list|, w, g, keep) <==> forall n :: !Older(w, n, g, keep)
  {
  }

  /** The older ones of the first `i` listed are drained, and gone if every call works. */
  ghost predicate Cleared(list: seq<Listing>, i: nat, w0: World, w: World, log: seq<Entry>, from: nat, g: Group,
                          keep: string, fine: bool) {
    forall k :: 0 <= k < i && k < |list| && Older(w0, list[k].name, g, keep) ==>
      Left(w0, w, log, from, list[k].name) && (fine ==> list[k].name !in w)
  }

  ghost predicate NoneOlder(list: seq<Listing>, i: nat, w0: World, g: Group, keep: string) {
    forall k :: 0 <= k < i && k < |list| ==> !Older(w0, list[k].name, g, keep)
  }

  lemma {:induction false} ClearedMore(list: seq<Listing>, i: nat, w0: World, v: World, w: World, l0: seq<Entry>,
                                       log: seq<Entry>,
                                       from: nat, g: Group, keep: string, fine: bool)
    requires i < |list| && Cleared(list, i, w0, v, l0, from, g, keep, fine) && ListedOnce(list)
    requires from <= |l0| && l0 <= log && Only(v, w, l0, log, list[i].name)
    requires Older(w0, list[i].name, g, keep) ==> Left(w0, w, log, from, list[i].name) && (fine ==> list[i].name !in w)
    ensures Cleared(list, i + 1, w0, w, log, from, g, keep, fine)
  {
    hide Older, Left;
    forall k | 0 <= k < i + 1 && k < |list| && Older(w0, list[k].name, g, keep)
      ensures Left(w0, w, log, from, list[k].name) && (fine ==> list[k].name !in w)
    {
      if k < i { LeftStays(w0, v, w, l0, log, from, list[k].name); }
    }
  }

  /** Each container is listed once. */
  predicate ListedOnce(list: seq<Listing>) {
    forall i, j :: 0 <= i < j < |list| ==> list[i].name != list[j].name
  }

  /** What the log has more than `l0` is about `n`, and so is all that changed. */
  ghost predicate Only(v: World, w: World, l0: seq<Entry>, log: seq<Entry>, n: string) {
    && OnlyAt(v, w, n)
    && forall i :: |l0| <= i < |log| ==> log[i].call.name == n
  }

  /** The listed from `i` on are as they were and no call has been about them. */
  ghost predicate StillListed(list: seq<Listing>, i: nat, w0: World, w: World, log: seq<Entry>, from: nat) {
    forall k :: i <= k < |list| ==>
      list[k].name in w0 && list[k].name in w && w[list[k].name] == w0[list[k].name]
          && Unmentioned(log, from, list[k].name)
  }

  lemma {:induction false} WaitingMore(list: seq<Listing>, i: nat, w0: World, v: World, w: World, l0: seq<Entry>,
                                       log: seq<Entry>, from: nat)
    requires i < |list| && ListedOnce(list) && StillListed(list, i, w0, v, l0, from)
    requires from <= |l0| && l0 <= log && Only(v, w, l0, log, list[i].name)
    ensures StillListed(list, i + 1, w0, w, log, from)
  {
    forall k | i + 1 <= k < |list|
      ensures list[k].name in w && w[list[k].name] == w0[list[k].name] && Unmentioned(log, from, list[k].name)
    {
      assert Unmentioned(l0, from, list[k].name);
      forall j | from <= j < |log| ensures log[j].call.name != list[k].name {
        if j < |l0| { assert log[j] == l0[j]; }
      }
    }
  }

  lemma {:induction false} AllWait(list: seq<Listing>, w: World, log: seq<Entry>)
    requires Lists(list, w)
    ensures StillListed(list, 0, w, w, log, |log|) && ListedOnce(list)
  {
  }

  lemma {:induction false} NoneOlderMore(list: seq<Listing>, i: nat, w0: World, g: Group, keep: string)
    requires i < |list|
    ensures NoneOlder(list, i + 1, w0, g, keep) <==>
            NoneOlder(list, i, w0, g, keep) && !Older(w0, list[i].name, g, keep)
  {
    hide Older;
  }

  /** What holds once the first `i` listed have been seen to; `l0` and `w0` are as at the start. */
  ghost predicate Draining(list: seq<Listing>, i: nat, l0: seq<Entry>, w0: World, log: seq<Entry>, w: World,
                           g: Group, keep: string, fine: bool) {
    && l0 <= log && Drains(log, |l0|, w0, g, keep) && Trimmed(w0, w, g, keep) && Graceful(log, |l0|)
    && Tells(l0, w0, log, w)
    && (log == l0 <==> NoneOlder(list, i, w0, g, keep))
    && Cleared(list, i, w0, w, log, |l0|, g, keep, fine) && StillListed(list, i, w0, w, log, |l0|)
  }

  lemma {:induction false} NotYetDraining(list: seq<Listing>, log: seq<Entry>, w: World, g: Group, keep: string,
                                          fine: bool)
    requires Lists(list, w)
    ensures Draining(list, 0, log, w, log, w, g, keep, fine)
  {
    AllWait(list, w, log);
  }

  method DrainListed(dk: Daemon, list: seq<Listing>, g: Group, keep: string)
    requires Lists(list, dk.world)
    modifies dk
    ensures old(dk.log) <= dk.log && Drains(dk.log, |old(dk.log)|, old(dk.world), g, keep)
    ensures Trimmed(old(dk.world), dk.world, g, keep)
    ensures Graceful(dk.log, |old(dk.log)|) && Tells(old(dk.log), old(dk.world), dk.log, dk.world)
    ensures dk.log == old(dk.log) <==> NoneOlder(list, |list|, old(dk.world), g, keep)
    ensures Cleared(list, |list|, old(dk.world), dk.world, dk.log, |old(dk.log)|, g, keep, old(dk.script) == [])
    ensures old(dk.script) == [] ==> dk.script == []
  {
    ghost var w0, l0, fine := dk.world, dk.log, dk.script == [];
    NotYetDraining(list, l0, w0, g, keep, fine);
    hide Graceful, Drains, Trimmed, Cleared, NoneOlder, StillListed, Tells;
    for i := 0 to |list|
      invariant Draining(list, i, l0, w0, dk.log, dk.world, g, keep, fine)
      invariant fine ==> dk.script == []
    {
      DrainNext(dk, list, i, g, keep, l0, w0, fine);
    }
  }

  lemma {:induction false} DrainingMore(list: seq<Listing>, i: nat, l0: seq<Entry>, w0: World, l: seq<Entry>, v: World,
                                        log: seq<Entry>, w: World, g: Group, keep: string, fine: bool)
    requires i < |list| && ListedOnce(list) && Draining(list, i, l0, w0, l, v, g, keep, fine)
    requires l <= log && Only(v, w, l, log, list[i].name)
    requires Drains(log, |l0|, w0, g, keep) && Trimmed(w0, w, g, keep) && Graceful(log, |l0|)
    requires if Older(w0, list[i].name, g, keep)
             then Left(w0, w, log, |l0|, list[i].name) && (fine ==> list[i].name !in w) && |log| > |l|
                 && log[|log| - 1].after == w
             else log == l && w == v
    ensures Draining(list, i + 1, l0, w0, log, w, g, keep, fine)
  {
    hide Graceful, Drains, Left, Trimmed, Cleared, NoneOlder, StillListed, ListedOnce, Only, Older;
    NoneOlderMore(list, i, w0, g, keep);
    ClearedMore(list, i, w0, v, w, l, log, |l0|, g, keep, fine);
    WaitingMore(list, i, w0, v, w, l, log, |l0|);
  }

  lemma {:induction false} DrainingReads(list: seq<Listing>, i: nat, l0: seq<Entry>, w0: World, log: seq<Entry>,
                                         w: World, g: Group, keep: string, fine: bool)
    requires i < |list| && Lists(list, w0) && Draining(list, i, l0, w0, log, w, g, keep, fine)
    ensures l0 <= log && Drains(log, |l0|, w0, g, keep) && Trimmed(w0, w, g, keep) && Graceful(log, |l0|)
    ensures var n := list[i].name; n in w0 && n in w && w[n] == w0[n] && Unmentioned(log, |l0|, n)
    ensures Older(w0, list[i].name, g, keep) <==> InGroup(list[i].c, g) && list[i].name != keep
    ensures ListedOnce(list)
  {
    hide Graceful, Drains, Trimmed, Cleared, NoneOlder;
  }

  method DrainNext(dk: Daemon, list: seq<Listing>, i: nat, g: Group, keep: string,
                   ghost l0: seq<Entry>, ghost w0: World, ghost fine: bool)
    requires i < |list| && Lists(list, w0) && Draining(list, i, l0, w0, dk.log, dk.world, g, keep, fine)
    requires fine ==> dk.script == []
    modifies dk
    ensures Draining(list, i + 1, l0, w0, dk.log, dk.world, g, keep, fine)
    ensures fine ==> dk.script == []
  {
    hide Graceful, Drains, Left, Trimmed, Lists, ListedOnce, Only, Unmentioned, Older, Draining;
    var n := list[i].name;
    ghost var v, l := dk.world, dk.log;
    DrainingReads(list, i, l0, w0, l, v, g, keep, fine);
    if InGroup(list[i].c, g) && n != keep {
      DrainOne(dk, n, g, keep, w0, |l0|);
    } else {
      NothingOnly(v, l, n);
    }
    DrainingMore(list, i, l0, w0, l, v, dk.log, dk.world, g, keep, fine);
  }

  lemma {:induction false} NothingOnly(w: World, log: seq<Entry>, n: string)
    ensures Only(w, w, log, log, n)
  {
  }

  method DrainOne(dk: Daemon, n: string, g: Group, keep: string, ghost w0: World, ghost from: nat)
    requires from <= |dk.log| && Older(w0, n, g, keep)
    requires Drains(dk.log, from, w0, g, keep) && Trimmed(w0, dk.world, g, keep) && Graceful(dk.log, from)
    requires n in dk.world && dk.world[n] == w0[n] && Unmentioned(dk.log, from, n)
    modifies dk
    ensures old(dk.log) <= dk.log && Drains(dk.log, from, w0, g, keep) && Trimmed(w0, dk.world, g, keep)
            && Graceful(dk.log, from)
    ensures Left(w0, dk.world, dk.log, from, n) && Only(old(dk.world), dk.world, old(dk.log), dk.log, n)
    ensures |dk.log| > |old(dk.log)| && dk.log[|dk.log| - 1].after == dk.world
    ensures old(dk.script) == [] ==> dk.script == [] && n !in dk.world
  {
    hide Drains, Graceful, Left, Trimmed, Happened, Unmentioned, Only, OnlyAt;
    ghost var l0, v0 := dk.log, dk.world;
    TrimMore(w0, dk.world, g, keep, n);
    var _, f := dk.ContainerStop(n);
    ghost var l1 := dk.log;
    DrainsMore(l0, from, w0, g, keep, l1[|l0|]);
    TrimMore(w0, dk.world, g, keep, n);
    var _, f' := dk.ContainerRemove(n);
    DrainsMore(l1, from, w0, g, keep, dk.log[|l1|]);
    GracefulMore(l0, from, l1[|l0|], dk.log[|l1|]);
    assert dk.log == l0 + [l1[|l0|], dk.log[|l1|]];
    JustDrained(w0, dk.world, l0, from, n, l1[|l0|], dk.log[|l1|]);
    DrainedOnly(v0, l1[|l0|].after, dk.world, l0, l1[|l0|], dk.log[|l1|], n);
  }

  lemma {:induction false} DrainsMore(log: seq<Entry>, from: nat, w0: World, g: Group, keep: string, e: Entry)
    requires from <= |log| && Drains(log, from, w0, g, keep) && Trimmed(w0, e.after, g, keep) && IsDrain(e.call, keep)
    ensures Drains(log + [e], from, w0, g, keep)
  {
    hide Trimmed;
  }

  lemma {:induction false} GracefulMore(log: seq<Entry>, from: nat, stop: Entry, remove: Entry)
    requires from <= |log| && Graceful(log, from) && stop.call.Stop? && remove.call == Remove(stop.call.name)
    ensures Graceful(log + [stop, remove], from)
  {
  }

  lemma {:induction false} JustDrained(w0: World, w: World, log: seq<Entry>, from: nat, n: string, stop: Entry,
                                       remove: Entry)
    requires from <= |log| && Unmentioned(log, from, n) && n in w0
    requires stop.call == Stop(n) && remove.call == Remove(n)
    requires n in w <==> remove.fault.Lost?
    requires n in w ==> w[n] == if stop.fault.Lost? then w0[n] else w0[n].(running := false)
    ensures Left(w0, w, log + [stop, remove], from, n)
  {
    var all := log + [stop, remove];
    assert all[|log|] == stop && all[|log| + 1] == remove;
    assert forall i :: from <= i < |log| ==> all[i] == log[i];
  }

  lemma {:induction false} DrainedOnly(v: World, x: World, w: World, log: seq<Entry>, stop: Entry, remove: Entry,
                                       n: string)
    requires stop.call == Stop(n) && remove.call == Remove(n)
    requires x == v || x == Set(v, n, false)
    requires w == x || w == x - {n}
    ensures Only(v, w, log, log + [stop, remove], n)
  {
  }

  lemma {:induction false} HappenedStays(a: seq<Entry>, b: seq<Entry>, from: nat, call: Call, f: Fault)
    requires a <= b && Happened(a, from, call, f)
    ensures Happened(b, from, call, f)
  {
    var i :| from <= i < |a| && a[i].call == call && a[i].fault == f;
    assert b[i] == a[i];
  }

  /** Calls about others change nothing of what happened to this container. */
  lemma {:induction false} HappenedSame(a: seq<Entry>, b: seq<Entry>, from: nat, call: Call, f: Fault)
    requires a <= b && Unmentioned(b, |a|, call.name)
    ensures Happened(a, from, call, f) <==> Happened(b, from, call, f)
  {
    if Happened(a, from, call, f) { HappenedStays(a, b, from, call, f); }
    if i :| from <= i < |b| && b[i].call == call && b[i].fault == f {
      assert i < |a|;
      assert a[i] == b[i];
    }
  }

  lemma {:induction false} HappenedLater(log: seq<Entry>, from: nat, mid: nat, call: Call, f: Fault)
    requires from <= mid <= |log| && Unmentioned(log[..mid], from, call.name)
    ensures Happened(log, from, call, f) <==> Happened(log, mid, call, f)
  {
    if i :| from <= i < |log| && log[i].call == call && log[i].fault == f {
      if i < mid { assert log[..mid][i] == log[i]; }
    }
  }

  lemma {:induction false} LeftStays(w0: World, v: World, w: World, a: seq<Entry>, b: seq<Entry>, from: nat, m: string)
    requires a <= b && Left(w0, v, a, from, m) && Unmentioned(b, |a|, m)
    requires (m in w <==> m in v) && (m in w ==> w[m] == v[m])
    ensures Left(w0, w, b, from, m)
  {
    HappenedSame(a, b, from, Remove(m), Lost);
    HappenedSame(a, b, from, Stop(m), Lost);
  }

  // ---- bringing the new generation up ----

  /** `w` is `w0` but for the container `s.name`: it may run or not as it did, or else is
      fresh from its spec while it is there. */
  ghost predicate Up(w0: World, w: World, s: Spec, serverId: string) {
    && OnlyAt(w0, w, s.name)
    && (if s.name in w0 then s.name in w && w[s.name].(running := false) == w0[s.name].(running := false)
        else FreshHere(w, s, serverId))
  }

  ghost predicate UpEntry(e: Entry, w0: World, s: Spec, serverId: string) {
    e.call.name == s.name && Up(w0, e.after, s, serverId)
  }

  predicate FreshHere(w: World, s: Spec, serverId: string) {
    s.name in w ==> w[s.name].(running := false) == Fresh(s, serverId)
  }

  ghost predicate UpOnly(log: seq<Entry>, from: nat, w0: World, s: Spec, serverId: string) {
    forall i :: from <= i < |log| ==> UpEntry(log[i], w0, s, serverId)
  }

  lemma {:induction false} UpMore(a: seq<Entry>, b: seq<Entry>, from: nat, w0: World, s: Spec, serverId: string)
    requires from <= |a| && UpOnly(a, from, w0, s, serverId) && |b| == |a| + 1 && a <= b
    requires UpEntry(b[|a|], w0, s, serverId)
    ensures UpOnly(b, from, w0, s, serverId)
  {
    hide UpEntry;
    forall i | from <= i < |b| ensures UpEntry(b[i], w0, s, serverId) {
      if i < |a| { assert b[i] == a[i]; }
    }
  }

  /** Whether the gate passes: some look sees the container running and healthy before
      any look fails to inspect it or ends the wait. */
  predicate GatePasses(looks: seq<Look>, script: seq<Fault>, portless: bool) {
    && |looks| > 0
    && (script == [] || script[0] == Fine)
    && (|| (looks[0].running && (portless || (looks[0].hasAddress && looks[0].healthy)))
        || (!looks[0].over && GatePasses(looks[1..], if script == [] then [] else script[1..], portless)))
  }

  /** At look `k` the container is seen ready, and neither the end of the wait nor a call that
      failed came before. */
  predicate PassesAt(looks: seq<Look>, script: seq<Fault>, portless: bool, k: nat) {
    && k < |looks|
    && looks[k].running && (portless || (looks[k].hasAddress && looks[k].healthy))
    && (forall j :: 0 <= j < k ==> !looks[j].over)
    && (forall j :: 0 <= j <= k && j < |script| ==> script[j] == Fine)
  }

  lemma {:induction false} PassesSomewhere(looks: seq<Look>, script: seq<Fault>, portless: bool) returns (k: nat)
    requires GatePasses(looks, script, portless)
    ensures PassesAt(looks, script, portless, k)
  {
    if looks[0].running && (portless || (looks[0].hasAddress && looks[0].healthy)) {
      k := 0;
    } else {
      var rest := if script == [] then [] else script[1..];
      k := PassesSomewhere(looks[1..], rest, portless);
      forall j | 0 <= j < k + 1 ensures !looks[j].over { if j > 0 { assert looks[j] == looks[1..][j - 1]; } }
      forall j | 0 <= j <= k + 1 && j < |script| ensures script[j] == Fine {
        if j > 0 { assert script[j] == rest[j - 1]; }
      }
      k := k + 1;
    }
  }

  lemma {:induction false} PassesThere(looks: seq<Look>, script: seq<Fault>, portless: bool, k: nat)
    requires PassesAt(looks, script, portless, k)
    ensures GatePasses(looks, script, portless)
  {
    assert script != [] ==> script[0] == Fine;
    if k > 0 {
      assert !looks[0].over;
      PassesThere(looks[1..], if script == [] then [] else script[1..], portless, k - 1);
    }
  }

  lemma {:induction false} GatePassesIff(looks: seq<Look>, script: seq<Fault>, portless: bool)
    ensures GatePasses(looks, script, portless) <==>
            exists k :: 0 <= k < |looks|
              && looks[k].running && (portless || (looks[k].hasAddress && looks[k].healthy))
              && (forall j :: 0 <= j < k ==> !looks[j].over)
              && (forall j :: 0 <= j <= k && j < |script| ==> script[j] == Fine)
  {
    if GatePasses(looks, script, portless) { var k := PassesSomewhere(looks, script, portless); }
    if k :| 0 <= k < |looks|
            && looks[k].running && (portless || (looks[k].hasAddress && looks[k].healthy))
            && (forall j :: 0 <= j < k ==> !looks[j].over)
            && (forall j :: 0 <= j <= k && j < |script| ==> script[j] == Fine) {
      PassesThere(looks, script, portless, k);
    }
  }

  /** One look: passed, failed, or wait on. */
  datatype Verdict = Passed | Failed | Waiting

  method LookOnce(dk: Daemon, s: Spec, portless: bool, look: Look, ghost from: nat, ghost w0: World,
                  ghost serverId: string)
    returns (verdict: Verdict)
    requires from <= |dk.log| && UpOnly(dk.log, from, w0, s, serverId)
    requires Up(w0, dk.world, s, serverId)
    modifies dk
    ensures old(dk.log) <= dk.log && UpOnly(dk.log, from, w0, s, serverId)
    ensures Up(w0, dk.world, s, serverId)
    ensures s.name in old(dk.world) <==> s.name in dk.world
    ensures s.name in dk.world ==> dk.world[s.name] == old(dk.world)[s.name].(running := look.running)
    ensures dk.script == if old(dk.script) == [] then [] else old(dk.script)[1..]
    ensures s.name in dk.world ==>
              verdict == if old(dk.script) != [] && old(dk.script)[0] != Fine then Failed
                         else if look.running && (portless || (look.hasAddress && look.healthy)) then Passed
                         else if look.over then Failed else Waiting
    ensures verdict.Passed? ==>
            s.name in dk.world && dk.world[s.name].running && Happened(dk.log, |old(dk.log)|, Gate(s.name), Fine)
  {
    hide UpOnly, OnlyAt, Up, Fresh, UpEntry, FreshHere;
    ghost var l0, v0 := dk.log, dk.world;
    if s.name in dk.world && dk.world[s.name].running != look.running {
      dk.Drifts(s.name, look.running);
      DriftsUp(w0, v0, dk.world, s, serverId, look.running);
      UpMore(l0, dk.log, from, w0, s, serverId);
    }
    var ok, cur := dk.ContainerInspect(s.name);
    if !ok { return Failed; }
    if cur.Some? && cur.value.running && (portless || (look.hasAddress && look.healthy)) {
      ghost var l1 := dk.log;
      dk.Note(Gate(s.name), Fine);
      assert dk.log[|l1|].call == Gate(s.name);
      GateUp(w0, dk.world, s, serverId);
      UpMore(l1, dk.log, from, w0, s, serverId);
      return Passed;
    }
    return if look.over then Failed else Waiting;
  }

  /** gateHealthy: polls until the container is seen running and healthy, or the wait is
      over. The container may exit and come back between looks. */
  method GateHealthy(dk: Daemon, s: Spec, portless: bool, looks: seq<Look>,
                     ghost from: nat, ghost w0: World, ghost serverId: string) returns (passed: bool)
    requires from <= |dk.log| && UpOnly(dk.log, from, w0, s, serverId)
    requires Up(w0, dk.world, s, serverId)
    modifies dk
    ensures old(dk.log) <= dk.log && UpOnly(dk.log, from, w0, s, serverId)
    ensures Up(w0, dk.world, s, serverId)
    ensures s.name in old(dk.world) ==>
            s.name in dk.world && dk.world[s.name].(running := false) == old(dk.world)[s.name].(running := false)
    ensures s.name in old(dk.world) ==> passed == GatePasses(looks, old(dk.script), portless)
    // That is, exactly if some look finds the container ready before the end of the wait or a failed inspection.
    ensures s.name in old(dk.world) ==>
            (passed <==>
             exists k :: 0 <= k < |looks|
               && looks[k].running && (portless || (looks[k].hasAddress && looks[k].healthy))
               && (forall j :: 0 <= j < k ==> !looks[j].over)
               && (forall j :: 0 <= j <= k && j < |old(dk.script)| ==> old(dk.script)[j] == Fine))
    ensures old(dk.script) == [] ==> dk.script == []
    ensures passed ==> s.name in dk.world && dk.world[s.name].running
    ensures passed ==> Happened(dk.log, |old(dk.log)|, Gate(s.name), Fine)
  {
    hide UpOnly, OnlyAt, Up, Fresh, UpEntry, FreshHere, Happened;
    GatePassesIff(looks, dk.script, portless);
    for i := 0 to |looks|
      invariant old(dk.log) <= dk.log && UpOnly(dk.log, from, w0, s, serverId)
      invariant Up(w0, dk.world, s, serverId)
      invariant s.name in old(dk.world) <==> s.name in dk.world
      invariant s.name in old(dk.world) ==>
                dk.world[s.name].(running := false) == old(dk.world)[s.name].(running := false)
      invariant old(dk.script) == [] ==> dk.script == []
      invariant s.name in dk.world ==>
                GatePasses(looks, old(dk.script), portless) == GatePasses(looks[i..], dk.script, portless)
    {
      assert looks[i..][1..] == looks[i + 1..];
      ghost var l0 := dk.log;
      var verdict := LookOnce(dk, s, portless, looks[i], from, w0, serverId);
      if verdict.Passed? {
        EarlierStart(dk.log, |l0|, |old(dk.log)|, Gate(s.name), Fine);
        return true;
      }
      if verdict.Failed? { return false; }
    }
    return false;
  }

  lemma {:induction false} DriftsUp(w0: World, w: World, w': World, s: Spec, serverId: string, running: bool)
    requires Up(w0, w, s, serverId) && w' == Set(w, s.name, running)
    ensures Up(w0, w', s, serverId)
    ensures UpEntry(Entry(Drift(s.name), Fine, w'), w0, s, serverId)
  {
  }

  lemma {:induction false} GateUp(w0: World, w: World, s: Spec, serverId: string)
    requires Up(w0, w, s, serverId)
    ensures UpEntry(Entry(Gate(s.name), Fine, w), w0, s, serverId)
  {
  }

  /** Creates, starts and gates the new generation. A failed start or hook removes it
      again; a failed gate does if `discard`. */
  method BringUp(dk: Daemon, s: Spec, serverId: string, portless: bool, swap: Swap, discard: bool) returns (ok: bool)
    modifies dk
    ensures old(dk.log) < dk.log && UpOnly(dk.log, |old(dk.log)|, old(dk.world), s, serverId)
    ensures Up(old(dk.world), dk.world, s, serverId)
    ensures ok ==>
              s.name !in old(dk.world) && s.name in dk.world
              && dk.world[s.name] == Fresh(s, serverId).(running := true)
    ensures ok ==> Happened(dk.log, |old(dk.log)|, Gate(s.name), Fine)
    ensures s.name in old(dk.world) ==> dk.world == old(dk.world)
    ensures s.name in old(dk.world) ==> forall i :: |old(dk.log)| <= i < |dk.log| ==> dk.log[i].after == old(dk.world)
    ensures old(dk.script) == [] ==> dk.script == []
    ensures old(dk.script) == [] && s.name !in old(dk.world) && !ok ==>
            (s.name in dk.world <==> swap.postStart && !discard)
    ensures old(dk.script) == [] && s.name !in old(dk.world) ==>
            ok == (swap.postStart && GatePasses(swap.looks, [], portless))
  {
    hide UpOnly, Happened;
    ghost var w0, from, l0 := dk.world, |dk.log|, dk.log;
    NothingUp(l0, w0, s, serverId);
    var created, _ := dk.ContainerCreate(s.name, Fresh(s, serverId));
    UpMore(l0, dk.log, from, w0, s, serverId);
    if !created { return false; }
    ghost var l1 := dk.log;
    var started, _ := dk.ContainerStart(s.name);
    UpMore(l1, dk.log, from, w0, s, serverId);
    if !started || !swap.postStart {
      Discard(dk, s, from, w0, serverId);
      return false;
    }
    ghost var l2 := dk.log;
    ok := GateHealthy(dk, s, portless, swap.looks, from, w0, serverId);
    if !ok && discard {
      Discard(dk, s, from, w0, serverId);
    }
    if ok { EarlierStart(dk.log, |l2|, from, Gate(s.name), Fine); }
  }

  lemma {:induction false} NothingUp(log: seq<Entry>, w0: World, s: Spec, serverId: string)
    ensures UpOnly(log, |log|, w0, s, serverId)
  {
  }

  lemma {:induction false} EarlierStart(log: seq<Entry>, later: nat, from: nat, call: Call, f: Fault)
    requires Happened(log, later, call, f) && from <= later
    ensures Happened(log, from, call, f)
  {
  }

  method Discard(dk: Daemon, s: Spec, ghost from: nat, ghost w0: World, ghost serverId: string)
    requires from <= |dk.log| && UpOnly(dk.log, from, w0, s, serverId)
    requires Up(w0, dk.world, s, serverId) && s.name !in w0
    modifies dk
    ensures old(dk.log) <= dk.log && UpOnly(dk.log, from, w0, s, serverId)
    ensures Up(w0, dk.world, s, serverId)
    ensures old(dk.script) == [] ==> dk.script == [] && s.name !in dk.world
  {
    hide UpOnly;
    ghost var l0 := dk.log;
    var _, _ := dk.ContainerRemove(s.name);
    UpMore(l0, dk.log, from, w0, s, serverId);
  }

  // ---- deploy.rollout ----

  /** `w` is `w0` but for the container `s.name`, which is gone, fresh from its spec or the one it was. */
  ghost predicate NewOnly(w0: World, w: World, s: Spec, serverId: string) {
    && OnlyAt(w0, w, s.name)
    && (FreshHere(w, s, serverId)
        || (s.name in w0 && s.name in w && w[s.name].(running := false) == w0[s.name].(running := false)))
  }

  /** Entries from `from` to `to` concern the container `s.name` alone. */
  ghost predicate Touches(log: seq<Entry>, from: nat, to: nat, w0: World, s: Spec, serverId: string) {
    forall i :: from <= i < to && i < |log| ==> log[i].call.name == s.name && NewOnly(w0, log[i].after, s, serverId)
  }

  /** A swap in two halves: up to `mid` only the new generation is touched, which leaves
      `w1`; after that older generations are drained. */
  ghost predicate Halves(log: seq<Entry>, from: nat, mid: nat, w0: World, w1: World, s: Spec, serverId: string) {
    && from <= mid <= |log|
    && Touches(log, from, mid, w0, s, serverId) && NewOnly(w0, w1, s, serverId)
    && Drains(log, mid, w1, GroupOf(s), s.name)
  }

  /** The group has a running container after every change. */
  ghost predicate NeverCut(log: seq<Entry>, from: nat, g: Group) {
    forall i :: from <= i < |log| ==> Serving(log[i].after, g)
  }

  /** Containers outside the group, other than `name`, are as they were in `w0`. */
  ghost predicate SparesOthers(w0: World, w: World, g: Group, name: string) {
    forall n :: n != name && !(n in w0 && InGroup(w0[n], g)) ==> (n in w <==> n in w0) && (n in w0 ==> w[n] == w0[n])
  }

  ghost predicate OthersUntouched(log: seq<Entry>, from: nat, w0: World, g: Group, name: string) {
    forall i :: from <= i < |log| ==> SparesOthers(w0, log[i].after, g, name)
  }

  /** No older generation is stopped or removed before the gate has passed. */
  ghost predicate GatedFirst(log: seq<Entry>, from: nat, name: string) {
    forall i :: from <= i < |log| && IsDrain(log[i].call, name) ==> Happened(log[..i], from, Gate(name), Fine)
  }

  /** A container that carries the spec's hash is still in the spec's group. */
  lemma {:induction false} NewOnlyIsGenuine(w0: World, w: World, s: Spec, serverId: string)
    requires NewOnly(w0, w, s, serverId) && KeepsItsGroup(s) && Genuine(w0, s)
    ensures Genuine(w, s)
  {
    FreshIsInItsGroup(s, serverId);
  }

  lemma {:induction false} HalvesLeaveOthers(log: seq<Entry>, from: nat, mid: nat, w0: World, w1: World, s: Spec,
                                             serverId: string)
    requires Halves(log, from, mid, w0, w1, s, serverId)
    ensures OthersUntouched(log, from, w0, GroupOf(s), s.name)
  {
    var g, name := GroupOf(s), s.name;
    forall i, n | from <= i < |log| && n != name && !(n in w0 && InGroup(w0[n], g))
      ensures (n in log[i].after <==> n in w0) && (n in w0 ==> log[i].after[n] == w0[n])
    {
      if i >= mid {
        assert Trimmed(w1, log[i].after, g, name);
        assert !Older(w1, n, g, name);
      } else {
        assert NewOnly(w0, log[i].after, s, serverId);
      }
    }
  }

  lemma {:induction false} HalvesServe(log: seq<Entry>, from: nat, mid: nat, w0: World, w1: World, s: Spec,
                                       serverId: string)
    requires Halves(log, from, mid, w0, w1, s, serverId) && Serving(w0, GroupOf(s))
    requires (from < mid ==> !RunsIn(w0, s.name, GroupOf(s))) && (mid < |log| ==> RunsIn(w1, s.name, GroupOf(s)))
    ensures NeverCut(log, from, GroupOf(s))
  {
    var g := GroupOf(s);
    var n :| RunsIn(w0, n, g);
    forall i | from <= i < |log| ensures Serving(log[i].after, g) {
      if i < mid {
        assert NewOnly(w0, log[i].after, s, serverId);
        assert RunsIn(log[i].after, n, g);
      } else {
        TrimServes(w1, log[i].after, g, s.name);
      }
    }
  }

  lemma {:induction false} HalvesGate(log: seq<Entry>, from: nat, mid: nat, w0: World, w1: World, s: Spec,
                                      serverId: string)
    requires Halves(log, from, mid, w0, w1, s, serverId)
    requires mid < |log| ==> Happened(log[..mid], from, Gate(s.name), Fine)
    ensures GatedFirst(log, from, s.name)
  {
    forall i | from <= i < |log| && IsDrain(log[i].call, s.name) ensures Happened(log[..i], from, Gate(s.name), Fine) {
      assert i >= mid;
      HappenedStays(log[..mid], log[..i], from, Gate(s.name), Fine);
    }
  }

  /** What a rollout did: up to `mid` only the new generation was touched, which left `w1`. */
  ghost predicate Swapped(log: seq<Entry>, from: nat, mid: nat, w0: World, w1: World, w: World, s: Spec,
                          serverId: string, ok: bool) {
    var g := GroupOf(s);
    && Halves(log, from, mid, w0, w1, s, serverId)
    && (from < mid ==> s.name !in w0 || !w0[s.name].running)
    && (from == mid ==> w1 == w0)
    && (mid < |log| || ok ==> RunsNew(w1, s) && (from < mid ==> w1[s.name] == Fresh(s, serverId).(running := true)))
    && (mid < |log| && from < mid ==> Happened(log[..mid], from, Gate(s.name), Fine))
    && (!ok ==> w == w1 && mid == |log|)
    && (ok ==> Trimmed(w1, w, g, s.name) && forall n :: Older(w1, n, g, s.name) ==> Left(w1, w, log, mid, n))
    && (ok ==> Tells(log[..mid], w1, log, w))
  }

  predicate RunsNew(w: World, s: Spec) {
    s.name in w && w[s.name].running && w[s.name].hash == Some(s)
  }

  lemma {:induction false} Unchanged(log: seq<Entry>, w: World, s: Spec, serverId: string)
    ensures Swapped(log, |log|, |log|, w, w, w, s, serverId, false)
  {
  }

  lemma {:induction false} OnlyTouched(log: seq<Entry>, from: nat, w0: World, w: World, s: Spec, serverId: string)
    requires from < |log| && Touches(log, from, |log|, w0, s, serverId) && NewOnly(w0, w, s, serverId)
    requires s.name !in w0 || !w0[s.name].running
    ensures Swapped(log, from, |log|, w0, w, w, s, serverId, false)
  {
    NoDrains(log, w, GroupOf(s), s.name);
    hide Left, Trimmed, Drains, Happened, NewOnly;
  }

  lemma {:induction false} NoDrains(log: seq<Entry>, w: World, g: Group, keep: string)
    ensures Drains(log, |log|, w, g, keep) && Graceful(log, |log|)
  {
  }

  lemma {:induction false} TouchesMore(a: seq<Entry>, b: seq<Entry>, from: nat, w0: World, w: World, s: Spec,
                                       serverId: string)
    requires from <= |a| && a <= b && Touches(a, from, |a|, w0, s, serverId) && NewOnly(w0, w, s, serverId)
    requires s.name !in w && UpOnly(b, |a|, w, s, serverId)
    ensures Touches(b, from, |b|, w0, s, serverId)
  {
    forall i | from <= i < |b| ensures b[i].call.name == s.name && NewOnly(w0, b[i].after, s, serverId) {
      if i < |a| { assert b[i] == a[i]; } else { assert UpEntry(b[i], w, s, serverId); }
    }
  }

  lemma {:induction false} TouchesStay(a: seq<Entry>, b: seq<Entry>, from: nat, w0: World, s: Spec, serverId: string)
    requires a <= b && Touches(a, from, |a|, w0, s, serverId)
    ensures Touches(b, from, |a|, w0, s, serverId)
  {
    forall i | from <= i < |a| ensures b[i] == a[i] {}
  }

  /** Bring up, then drain: what follows once the name is free. */
  method SwapFresh(dk: Daemon, s: Spec, serverId: string, portless: bool, swap: Swap, ghost from: nat, ghost w0: World)
    returns (ok: bool, ghost mid: nat, ghost w1: World)
    requires from <= |dk.log| && Touches(dk.log, from, |dk.log|, w0, s, serverId) && NewOnly(w0, dk.world, s, serverId)
    requires s.name !in dk.world && (s.name !in w0 || !w0[s.name].running)
    modifies dk
    ensures old(dk.log) <= dk.log && Swapped(dk.log, from, mid, w0, w1, dk.world, s, serverId, ok)
    ensures old(dk.script) == [] ==> dk.script == [] && ok == (swap.postStart && GatePasses(swap.looks, [], portless))
    ensures old(dk.script) == [] && !ok ==> s.name !in dk.world
    ensures old(dk.script) == [] && ok ==> forall n :: Older(w1, n, GroupOf(s), s.name) ==> n !in dk.world
  {
    hide Trimmed, Left, Drains, UpOnly, Touches, OnlyAt;
    ghost var l1, v1 := dk.log, dk.world;
    ok := BringUp(dk, s, serverId, portless, swap, true);
    TouchesMore(l1, dk.log, from, w0, v1, s, serverId);
    mid, w1 := |dk.log|, dk.world;
    OnlyAtTwice(w0, v1, w1, s.name);
    OnlyTouched(dk.log, from, w0, dk.world, s, serverId);
    if !ok { return; }
    EarlierStart(dk.log, |l1|, from, Gate(s.name), Fine);
    ghost var l2 := dk.log;
    ok := DrainOld(dk, GroupOf(s), s.name);
    assert dk.log[..mid] == l2;
    TouchesStay(l2, dk.log, from, w0, s, serverId);
  }

  lemma {:induction false} OnlyAtTwice(a: World, b: World, c: World, name: string)
    requires OnlyAt(a, b, name) && OnlyAt(b, c, name)
    ensures OnlyAt(a, c, name)
  {
  }

  /** The steps of performRollout, with the point `mid` and world `w1` at which draining starts. */
  method SwapBlueGreen(dk: Daemon, spec: RolloutSpec, serverId: string, swap: Swap)
    returns (ok: bool, ghost mid: nat, ghost w1: World)
    modifies dk
    ensures old(dk.log) <= dk.log
    ensures Swapped(dk.log, |old(dk.log)|, mid, old(dk.world), w1, dk.world, GenSpec(spec), serverId, ok)
    ensures old(dk.script) == [] ==> dk.script == [] && (ok <==> Swaps(old(dk.world), spec, swap))
    ensures var s := GenSpec(spec);
            s.name in old(dk.world) && old(dk.world)[s.name].running ==>
              (dk.log == old(dk.log) <==> Still(old(dk.world), old(dk.script), s))
    ensures old(dk.script) == [] && !ok ==> FailsClean(old(dk.world), dk.world, GenSpec(spec).name)
    ensures old(dk.script) == [] && ok ==>
            forall n :: Older(w1, n, GroupOf(GenSpec(spec)), GenSpec(spec).name) ==> n !in dk.world
  {
    var s := GenSpec(spec);
    ghost var from, w0 := |dk.log|, dk.world;
    mid, w1 := from, w0;
    Unchanged(dk.log, w0, s, serverId);
    hide Trimmed, Left, Drains;
    var cur;
    ok, cur := dk.ContainerInspect(s.name);
    if !ok { return; }
    if cur.Some? && cur.value.running {
      if cur.value.hash == Some(s) {
        // Converged already: drain any stragglers.
        ok := DrainOld(dk, GroupOf(s), s.name);
      } else {
        // A serving container already has this name: refuse rather than cut it.
        ok := false;
      }
      return;
    }
    if cur.Some? {
      var removed, _ := dk.ContainerRemove(s.name);
      if !removed {
        mid, w1 := |dk.log|, dk.world;
        OnlyTouched(dk.log, from, w0, dk.world, s, serverId);
        ok := false;
        return;
      }
    }
    ok, mid, w1 := SwapFresh(dk, s, serverId, spec.portless, swap, from, w0);
  }

  /** A rollout of a running generation changes nothing: its inspection fails, the name is
      held by another spec, the list fails, or there is no older generation. */
  ghost predicate Still(w0: World, script: seq<Fault>, s: Spec)
    requires s.name in w0
  {
    || (script != [] && script[0] != Fine)
    || w0[s.name].hash != Some(s)
    || (|script| > 1 && script[1] != Fine)
    || forall n :: !Older(w0, n, GroupOf(s), s.name)
  }

  /** What a failed rollout leaves of the new name: the container that ran there, or nothing. */
  predicate FailsClean(w0: World, w: World, name: string) {
    if name in w0 && w0[name].running then w == w0 else name !in w
  }

  /** When every call works, a rollout succeeds unless another container holds its name
      running, or the hook or the gate fails. */
  predicate Swaps(w0: World, spec: RolloutSpec, swap: Swap) {
    var s := GenSpec(spec);
    if s.name in w0 && w0[s.name].running then w0[s.name].hash == Some(s)
    else swap.postStart && GatePasses(swap.looks, [], spec.portless)
  }

  lemma {:induction false} HalvesStart(log: seq<Entry>, from: nat, mid: nat, w0: World, w1: World, s: Spec,
                                       serverId: string)
    requires Halves(log, from, mid, w0, w1, s, serverId)
    ensures from <= mid <= |log| && NewOnly(w0, w1, s, serverId)
  {
  }

  lemma {:induction false} SwappedServes(log: seq<Entry>, from: nat, mid: nat, w0: World, w1: World, w: World,
                                         s: Spec, serverId: string, ok: bool)
    requires Swapped(log, from, mid, w0, w1, w, s, serverId, ok)
    requires KeepsItsGroup(s) && Serving(w0, GroupOf(s))
    requires s.name in w0 && w0[s.name].running ==> Genuine(w0, s)
    ensures NeverCut(log, from, GroupOf(s)) && Serving(w, GroupOf(s))
  {
    hide Halves, NeverCut, Left;
    FreshIsInItsGroup(s, serverId);
    HalvesStart(log, from, mid, w0, w1, s, serverId);
    assert mid < |log| || ok ==> RunsIn(w1, s.name, GroupOf(s));
    HalvesServe(log, from, mid, w0, w1, s, serverId);
    if ok {
      TrimServes(w1, w, GroupOf(s), s.name);
    } else {
      var n :| RunsIn(w0, n, GroupOf(s));
      assert RunsIn(w, n, GroupOf(s));
    }
  }

  /** A fresh container that starts outside its group leaves the group without one. */
  lemma {:induction false} SwappedCuts(log: seq<Entry>, from: nat, mid: nat, w0: World, w1: World, w: World,
                                       s: Spec, serverId: string)
    requires Swapped(log, from, mid, w0, w1, w, s, serverId, true)
    requires !KeepsItsGroup(s) && !(s.name in w0 && w0[s.name].running)
    requires forall n :: Older(w1, n, GroupOf(s), s.name) ==> n !in w
    ensures !Serving(w, GroupOf(s))
    ensures Serving(w0, GroupOf(s)) ==> !NeverCut(log, from, GroupOf(s))
  {
    hide Halves, Drains, Touches, Left, Happened;
    HalvesStart(log, from, mid, w0, w1, s, serverId);
    FreshIsInItsGroup(s, serverId);
    TrimSpares(w0, w1, w, GroupOf(s), s.name);
    forall n ensures !RunsIn(w, n, GroupOf(s)) {
      assert n in w && n != s.name && InGroup(w[n], GroupOf(s)) ==> Older(w1, n, GroupOf(s), s.name);
    }
    if Serving(w0, GroupOf(s)) {
      var n :| RunsIn(w0, n, GroupOf(s));
      assert Older(w1, n, GroupOf(s), s.name);
      assert w != w1 && log[|log| - 1].after == w;
    }
  }

  lemma {:induction false} SwappedSpares(log: seq<Entry>, from: nat, mid: nat, w0: World, w1: World, w: World,
                                         s: Spec, serverId: string, ok: bool)
    requires Swapped(log, from, mid, w0, w1, w, s, serverId, ok)
    ensures OthersUntouched(log, from, w0, GroupOf(s), s.name) && SparesOthers(w0, w, GroupOf(s), s.name)
    ensures KeepsItsGroup(s) && Genuine(w0, s) ==> Genuine(w, s)
  {
    hide Drains, Touches, Left;
    HalvesLeaveOthers(log, from, mid, w0, w1, s, serverId);
    if KeepsItsGroup(s) && Genuine(w0, s) { NewOnlyIsGenuine(w0, w1, s, serverId); }
    if ok { TrimSpares(w0, w1, w, GroupOf(s), s.name); }
  }

  lemma {:induction false} TrimSpares(w0: World, w1: World, w: World, g: Group, name: string)
    requires OnlyAt(w0, w1, name) && Trimmed(w1, w, g, name)
    ensures SparesOthers(w0, w, g, name) && (name in w <==> name in w1) && (name in w ==> w[name] == w1[name])
  {
    forall n | n != name && !(n in w0 && InGroup(w0[n], g))
      ensures (n in w <==> n in w0) && (n in w0 ==> w[n] == w0[n])
    {
      assert !Older(w1, n, g, name);
    }
    assert !Older(w1, name, g, name);
  }

  lemma {:induction false} SwappedGates(log: seq<Entry>, from: nat, mid: nat, w0: World, w1: World, w: World,
                                        s: Spec, serverId: string, ok: bool)
    requires Swapped(log, from, mid, w0, w1, w, s, serverId, ok)
    ensures !ok ==> Touches(log, from, |log|, w0, s, serverId) && NewOnly(w0, w, s, serverId)
    ensures GatedFirst(log, from, s.name) <==> !(s.name in w0 && w0[s.name].running) || |log| == from
  {
    hide Drains, Touches, Left, GatedFirst, NewOnly;
    if !(s.name in w0 && w0[s.name].running) {
      assert mid < |log| ==> from < mid;
      HalvesGate(log, from, mid, w0, w1, s, serverId);
    } else {
      DrainsUngated(log, from, w0, GroupOf(s), s.name);
    }
  }

  lemma {:induction false} DrainsUngated(log: seq<Entry>, from: nat, w0: World, g: Group, name: string)
    requires from <= |log| && Drains(log, from, w0, g, name)
    ensures GatedFirst(log, from, name) <==> |log| == from
  {
    if from < |log| {
      assert IsDrain(log[from].call, name) && !Happened(log[..from], from, Gate(name), Fine);
    }
  }

  lemma {:induction false} SwappedEnds(log: seq<Entry>, from: nat, mid: nat, w0: World, w1: World, w: World,
                                       s: Spec, serverId: string)
    requires Swapped(log, from, mid, w0, w1, w, s, serverId, true)
    ensures RunsNew(w, s)
    ensures w[s.name] == if s.name in w0 && w0[s.name].running then w0[s.name] else Fresh(s, serverId).(running := true)
    ensures forall n :: Older(w0, n, GroupOf(s), s.name) ==> Left(w0, w, log, from, n)
  {
    TrimSpares(w0, w1, w, GroupOf(s), s.name);
    forall n | Older(w0, n, GroupOf(s), s.name) ensures Left(w0, w, log, from, n) {
      assert Older(w1, n, GroupOf(s), s.name) && Left(w1, w, log, mid, n);
      forall i | from <= i < mid ensures log[..mid][i].call.name != n { assert log[i].call.name == s.name; }
      LeftEarlier(w0, w1, w, log, mid, from, n);
    }
  }

  lemma {:induction false} SwappedServesIff(log: seq<Entry>, from: nat, mid: nat, w0: World, w1: World, w: World,
                                            s: Spec, serverId: string)
    requires Swapped(log, from, mid, w0, w1, w, s, serverId, true)
    requires !(s.name in w0 && w0[s.name].running)
    requires forall n :: Older(w1, n, GroupOf(s), s.name) ==> n !in w
    ensures Serving(w, GroupOf(s)) <==> KeepsItsGroup(s)
    ensures Serving(w0, GroupOf(s)) ==> (NeverCut(log, from, GroupOf(s)) <==> KeepsItsGroup(s))
  {
    hide Swapped, NeverCut, Left;
    if KeepsItsGroup(s) {
      SwappedEnds(log, from, mid, w0, w1, w, s, serverId);
      FreshIsInItsGroup(s, serverId);
      assert RunsIn(w, s.name, GroupOf(s));
      if Serving(w0, GroupOf(s)) { SwappedServes(log, from, mid, w0, w1, w, s, serverId, true); }
    } else {
      SwappedCuts(log, from, mid, w0, w1, w, s, serverId);
    }
  }

  // ---- the same in the fields of the containers ----

  lemma {:induction false} ServingPlainly(w: World, s: Spec)
    ensures Serving(w, GroupOf(s)) <==>
            exists n :: n in w && w[n].running
              && w[n].managed && w[n].resource == s.resourceId && w[n].service == s.service
  {
    if Serving(w, GroupOf(s)) { var n :| RunsIn(w, n, GroupOf(s)); }
    if n :| n in w && w[n].running && w[n].managed && w[n].resource == s.resourceId && w[n].service == s.service {
      assert RunsIn(w, n, GroupOf(s));
    }
  }

  lemma {:induction false} NeverCutPlainly(log: seq<Entry>, from: nat, s: Spec, i: nat)
    requires NeverCut(log, from, GroupOf(s)) && from <= i < |log|
    ensures var w := log[i].after;
            exists n :: n in w && w[n].running
              && w[n].managed && w[n].resource == s.resourceId && w[n].service == s.service
  {
    hide Serving;
    ServingPlainly(log[i].after, s);
  }

  /** A container of another resource or service, or one that is not managed. */
  lemma {:induction false} SparesPlainly(w0: World, w: World, s: Spec, n: string)
    requires SparesOthers(w0, w, GroupOf(s), s.name) && n != s.name
    ensures n !in w0 ==> n !in w
    ensures n in w0 && (!w0[n].managed || w0[n].resource != s.resourceId || w0[n].service != s.service) ==>
            n in w && w[n] == w0[n]
  {
  }

  lemma {:induction false} UntouchedPlainly(log: seq<Entry>, from: nat, w0: World, s: Spec)
    requires OthersUntouched(log, from, w0, GroupOf(s), s.name)
    ensures forall i, n :: from <= i < |log| && n != s.name && n !in w0 ==> n !in log[i].after
    ensures forall i, n :: from <= i < |log| && n != s.name && n in w0
                           && (!w0[n].managed || w0[n].resource != s.resourceId || w0[n].service != s.service) ==>
              n in log[i].after && log[i].after[n] == w0[n]
  {
    hide SparesOthers;
    forall i, n | from <= i < |log| && n != s.name
      ensures n !in w0 ==> n !in log[i].after
      ensures n in w0 && (!w0[n].managed || w0[n].resource != s.resourceId || w0[n].service != s.service) ==>
              n in log[i].after && log[i].after[n] == w0[n]
    {
      SparesPlainly(w0, log[i].after, s, n);
    }
  }

  /** Before the drain only the new name is touched. */
  lemma {:induction false} TouchesPlainly(log: seq<Entry>, from: nat, w0: World, s: Spec, serverId: string, i: nat,
                                          n: string)
    requires Touches(log, from, |log|, w0, s, serverId) && from <= i < |log| && n != s.name
    ensures log[i].call.name == s.name
    ensures (n in log[i].after <==> n in w0) && (n in w0 ==> log[i].after[n] == w0[n])
  {
  }

  /** The drain after a gate: every stop and removal of another container comes after it. */
  lemma {:induction false} GatedPlainly(log: seq<Entry>, from: nat, name: string)
    ensures GatedFirst(log, from, name) <==>
            forall i :: from <= i < |log| && (log[i].call.Stop? || log[i].call.Remove?) && log[i].call.name != name ==>
              exists k :: from <= k < i && log[k].call == Gate(name) && log[k].fault == Fine
  {
    forall i | 0 <= i < |log| ensures Happened(log[..i], from, Gate(name), Fine) <==>
                                      exists k :: from <= k < i && log[k].call == Gate(name) && log[k].fault == Fine
    {
      if Happened(log[..i], from, Gate(name), Fine) {
        var k :| from <= k < i && log[..i][k].call == Gate(name) && log[..i][k].fault == Fine;
        assert log[k] == log[..i][k];
      }
      if k :| from <= k < i && log[k].call == Gate(name) && log[k].fault == Fine { assert log[..i][k] == log[k]; }
    }
  }

  /** What success leaves of each other generation of the group. */
  lemma {:induction false} LeftPlainly(w0: World, w: World, log: seq<Entry>, from: nat, s: Spec)
    requires forall n :: Older(w0, n, GroupOf(s), s.name) ==> Left(w0, w, log, from, n)
    ensures forall n :: n in w0 && n != s.name && w0[n].managed && w0[n].resource == s.resourceId
                        && w0[n].service == s.service ==>
              (n in w <==> exists i :: from <= i < |log| && log[i].call == Remove(n) && log[i].fault == Lost)
              && (n in w ==> (w[n].running <==>
                    w0[n].running && exists i :: from <= i < |log| && log[i].call == Stop(n) && log[i].fault == Lost))
  {
    forall n | n in w0 && n != s.name && w0[n].managed && w0[n].resource == s.resourceId && w0[n].service == s.service
      ensures Left(w0, w, log, from, n)
    {
      assert Older(w0, n, GroupOf(s), s.name);
    }
  }

  lemma {:induction false} SwapsPlainly(w0: World, spec: RolloutSpec, swap: Swap)
    ensures var s := GenSpec(spec);
            Swaps(w0, spec, swap) <==>
              if s.name in w0 && w0[s.name].running then w0[s.name].hash == Some(s)
              else swap.postStart && GatePasses(swap.looks, [], spec.portless)
  {
  }

  /** What the never-cut theorem asks of a spec and of a world. */
  lemma {:induction false} PremisesPlainly(w0: World, s: Spec)
    ensures KeepsItsGroup(s) <==>
            s.service != "" || "sigmahub.service" !in s.labels || s.labels["sigmahub.service"] == ""
    ensures Genuine(w0, s) <==>
            (s.name in w0 && w0[s.name].hash == Some(s) ==>
               w0[s.name].managed && w0[s.name].resource == s.resourceId && w0[s.name].service == s.service)
  {
  }

  /** performRollout. */
  method PerformRollout(dk: Daemon, spec: RolloutSpec, serverId: string, swap: Swap) returns (ok: bool)
    modifies dk
    ensures old(dk.log) <= dk.log
    // The group is never without a running container.
    ensures var s := GenSpec(spec);
            KeepsItsGroup(s) && Genuine(old(dk.world), s) && Serving(old(dk.world), GroupOf(s)) ==>
              NeverCut(dk.log, |old(dk.log)|, GroupOf(s)) && Serving(dk.world, GroupOf(s))
    // No other group is touched.
    ensures OthersUntouched(dk.log, |old(dk.log)|, old(dk.world), GroupOf(GenSpec(spec)), GenSpec(spec).name)
    ensures SparesOthers(old(dk.world), dk.world, GroupOf(GenSpec(spec)), GenSpec(spec).name)
    // An error leaves every other container as it was, at every step.
    ensures !ok ==> Touches(dk.log, |old(dk.log)|, |dk.log|, old(dk.world), GenSpec(spec), serverId)
                    && NewOnly(old(dk.world), dk.world, GenSpec(spec), serverId)
    // When the name is not running at entry and every call works, that is so exactly if the
    // spec keeps its group: otherwise the swap drains a group its own container is not in.
    ensures var s := GenSpec(spec);
            old(dk.script) == [] && Swaps(old(dk.world), spec, swap)
                && !(s.name in old(dk.world) && old(dk.world)[s.name].running) ==>
              && (Serving(dk.world, GroupOf(s)) <==> KeepsItsGroup(s))
              && (Serving(old(dk.world), GroupOf(s)) ==>
                  (NeverCut(dk.log, |old(dk.log)|, GroupOf(s)) <==> KeepsItsGroup(s)))
    // The new generation passed its gate in this call before any older one was touched, exactly
    // unless it ran at entry and there was something to drain: then the gate is not tried again.
    ensures var s := GenSpec(spec);
            GatedFirst(dk.log, |old(dk.log)|, s.name) <==>
              !(s.name in old(dk.world) && old(dk.world)[s.name].running) || Still(old(dk.world), old(dk.script), s)
    // Success leaves the new generation running, fresh unless it ran before, and an older one
    // exactly where its removal was lost, running exactly where it ran and its stop was lost too.
    ensures ok ==> var n := GenSpec(spec).name;
              RunsNew(dk.world, GenSpec(spec))
              && dk.world[n] == if n in old(dk.world) && old(dk.world)[n].running then old(dk.world)[n]
                                else Fresh(GenSpec(spec), serverId).(running := true)
    ensures ok ==> RunsNew(dk.world, GenSpec(spec))
                   && forall n :: Older(old(dk.world), n, GroupOf(GenSpec(spec)), GenSpec(spec).name) ==>
                        Left(old(dk.world), dk.world, dk.log, |old(dk.log)|, n)
    ensures old(dk.script) == [] ==> dk.script == [] && (ok <==> Swaps(old(dk.world), spec, swap))
    ensures old(dk.script) == [] && !ok ==>
              var name, w0 := GenSpec(spec).name, old(dk.world);
              if name in w0 && w0[name].running then dk.world == w0 else name !in dk.world
    ensures old(dk.script) == [] && ok ==>
              forall n :: Older(old(dk.world), n, GroupOf(GenSpec(spec)), GenSpec(spec).name) ==> n !in dk.world
    // In plain terms it runs its own spec afterwards, and succeeds, when every call works,
    // exactly if it did so before or its hook and its gate succeed.
    ensures ok ==> var s := GenSpec(spec);
              s.name in dk.world && dk.world[s.name].running && dk.world[s.name].hash == Some(s)
    ensures old(dk.script) == [] ==>
              var s, w0 := GenSpec(spec), old(dk.world);
              (ok <==> if s.name in w0 && w0[s.name].running then w0[s.name].hash == Some(s)
                       else swap.postStart && GatePasses(swap.looks, [], spec.portless))
    // A later attempt starts from a world of the same kind.
    ensures KeepsItsGroup(GenSpec(spec)) && Genuine(old(dk.world), GenSpec(spec)) ==> Genuine(dk.world, GenSpec(spec))
  {
    hide Swapped, NeverCut, OthersUntouched, SparesOthers, Touches, NewOnly, GatedFirst, Left, Serving, Genuine,
         KeepsItsGroup, Swaps, Still, Fresh;
    ghost var w0, from, s := dk.world, |dk.log|, GenSpec(spec);
    ghost var mid, w1;
    ok, mid, w1 := SwapBlueGreen(dk, spec, serverId, swap);
    SwappedSpares(dk.log, from, mid, w0, w1, dk.world, s, serverId, ok);
    SwappedGates(dk.log, from, mid, w0, w1, dk.world, s, serverId, ok);
    if KeepsItsGroup(s) && Genuine(w0, s) && Serving(w0, GroupOf(s)) {
      SwappedServes(dk.log, from, mid, w0, w1, dk.world, s, serverId, ok);
    }
    if ok {
      SwappedEnds(dk.log, from, mid, w0, w1, dk.world, s, serverId);
      if old(dk.script) == [] && !(s.name in w0 && w0[s.name].running) {
        SwappedServesIff(dk.log, from, mid, w0, w1, dk.world, s, serverId);
      }
      OlderEither(dk.log, from, mid, w0, w1, dk.world, s, serverId);
    }
    SwapsPlainly(w0, spec, swap);
  }

  lemma {:induction false} OlderEither(log: seq<Entry>, from: nat, mid: nat, w0: World, w1: World, w: World,
                                       s: Spec, serverId: string)
    requires Swapped(log, from, mid, w0, w1, w, s, serverId, true)
    ensures forall n :: Older(w0, n, GroupOf(s), s.name) ==> Older(w1, n, GroupOf(s), s.name)
  {
    hide Drains, Touches, Left, Happened, Trimmed;
  }

  /** One try at an op: how its daemon calls go and what its gate sees. A process that
      dies half-way is one whose calls are all lost from that point. */
  datatype Try = Try(script: seq<Fault>, swap: Swap)

  /** A rollout that is run again after crashes and errors, however often. */
  method RolloutAgain(dk: Daemon, spec: RolloutSpec, serverId: string, tries: seq<Try>) returns (ok: bool)
    requires KeepsItsGroup(GenSpec(spec)) && Genuine(dk.world, GenSpec(spec))
             && Serving(dk.world, GroupOf(GenSpec(spec)))
    modifies dk
    ensures old(dk.log) <= dk.log
    ensures NeverCut(dk.log, |old(dk.log)|, GroupOf(GenSpec(spec)))
    ensures OthersUntouched(dk.log, |old(dk.log)|, old(dk.world), GroupOf(GenSpec(spec)), GenSpec(spec).name)
    ensures ok ==> RunsNew(dk.world, GenSpec(spec))
  {
    hide Swaps, Genuine, KeepsItsGroup, Serving, Touches, NewOnly, GatedFirst, Left, RunsNew, SparesOthers,
         OthersUntouched;
    ghost var w0, from, g, name := dk.world, |dk.log|, GroupOf(GenSpec(spec)), GenSpec(spec).name;
    ok := false;
    OthersAtFirst(dk.log, w0, g, name);
    for i := 0 to |tries|
      invariant old(dk.log) <= dk.log && NeverCut(dk.log, from, g) && OthersUntouched(dk.log, from, w0, g, name)
      invariant Genuine(dk.world, GenSpec(spec)) && Serving(dk.world, g) && SparesOthers(w0, dk.world, g, name)
      invariant ok ==> RunsNew(dk.world, GenSpec(spec))
    {
      ghost var l1, v1 := dk.log, dk.world;
      dk.script := tries[i].script;
      ok := PerformRollout(dk, spec, serverId, tries[i].swap);
      NeverCutTwice(l1, dk.log, from, g);
      OthersTwice(l1, dk.log, from, w0, v1, dk.world, g, name);
    }
  }

  lemma {:induction false} OthersAtFirst(log: seq<Entry>, w: World, g: Group, name: string)
    ensures OthersUntouched(log, |log|, w, g, name) && SparesOthers(w, w, g, name)
  {
  }

  lemma {:induction false} NeverCutTwice(a: seq<Entry>, b: seq<Entry>, from: nat, g: Group)
    requires from <= |a| && a <= b && NeverCut(a, from, g) && NeverCut(b, |a|, g)
    ensures NeverCut(b, from, g)
  {
    hide Serving;
    forall i | from <= i < |b| ensures Serving(b[i].after, g) {
      if i < |a| { assert b[i] == a[i]; }
    }
  }

  lemma {:induction false} SparesTwice(w0: World, v: World, w: World, g: Group, name: string)
    requires SparesOthers(w0, v, g, name) && SparesOthers(v, w, g, name)
    ensures SparesOthers(w0, w, g, name)
  {
  }

  lemma {:induction false} OthersTwice(a: seq<Entry>, b: seq<Entry>, from: nat, w0: World, v: World, w: World,
                                       g: Group, name: string)
    requires from <= |a| && a <= b && OthersUntouched(a, from, w0, g, name) && SparesOthers(w0, v, g, name)
    requires OthersUntouched(b, |a|, v, g, name) && SparesOthers(v, w, g, name)
    ensures OthersUntouched(b, from, w0, g, name) && SparesOthers(w0, w, g, name)
  {
    hide SparesOthers;
    SparesTwice(w0, v, w, g, name);
    forall i | from <= i < |b| ensures SparesOthers(w0, b[i].after, g, name) {
      if i < |a| { assert b[i] == a[i]; } else { SparesTwice(w0, v, b[i].after, g, name); }
    }
  }

  // ---- deploy.recreate ----

  /** A container of the group that runs on because both its stop and its removal were lost. */
  ghost predicate Survivor(w: World, log: seq<Entry>, from: nat, g: Group, n: string) {
    RunsIn(w, n, g) && Happened(log, from, Stop(n), Lost) && Happened(log, from, Remove(n), Lost)
  }

  /** At most one container of the group runs after every change, unless one outlived its drain. */
  ghost predicate Exclusive(log: seq<Entry>, from: nat, g: Group) {
    forall i :: from <= i < |log| ==>
      AtMostOne(log[i].after, g) || exists n :: Survivor(log[i].after, log, from, g, n)
  }

  lemma {:induction false} TrimIsExclusive(w0: World, w: World, g: Group, keep: string)
    requires AtMostOne(w0, g) && Trimmed(w0, w, g, keep)
    ensures AtMostOne(w, g)
  {
    forall m, n | RunsIn(w, m, g) && RunsIn(w, n, g) ensures m == n {
      assert RunsIn(w0, m, g) && RunsIn(w0, n, g);
    }
  }

  lemma {:induction false} UpIsExclusive(w0: World, w: World, s: Spec, serverId: string, g: Group)
    requires Up(w0, w, s, serverId)
    requires s.name in w0 ==> w0[s.name].running && AtMostOne(w0, g)
    requires s.name !in w0 ==> forall n :: !RunsIn(w0, n, g)
    ensures AtMostOne(w, g)
  {
    forall m, n | RunsIn(w, m, g) && RunsIn(w, n, g) ensures m == n {
      assert m != s.name ==> RunsIn(w0, m, g);
      assert n != s.name ==> RunsIn(w0, n, g);
      if s.name in w0 && (m == s.name || n == s.name) { assert RunsIn(w0, s.name, g); }
    }
  }

  /** First half of a converged recreate: only the gate's looks at the running container. */
  lemma {:induction false} GatedExclusive(log: seq<Entry>, from: nat, mid: nat, w0: World, w1: World, s: Spec,
                                          serverId: string, g: Group)
    requires from <= mid <= |log| && UpOnly(log[..mid], from, w0, s, serverId) && Up(w0, w1, s, serverId)
    requires Drains(log, mid, w1, g, s.name) && s.name in w0 && w0[s.name].running && AtMostOne(w0, g)
    ensures Exclusive(log, from, g)
  {
    UpIsExclusive(w0, w1, s, serverId, g);
    forall i | from <= i < |log| ensures AtMostOne(log[i].after, g) {
      if i < mid {
        assert UpEntry(log[..mid][i], w0, s, serverId);
        UpIsExclusive(w0, log[i].after, s, serverId, g);
      } else {
        TrimIsExclusive(w1, log[i].after, g, s.name);
      }
    }
  }

  /** Nothing of the group runs once it is drained, but for the survivors. */
  lemma {:induction false} DrainedOut(log: seq<Entry>, from: nat, w0: World, w: World, g: Group)
    requires Trimmed(w0, w, g, "") && "" !in w0
    requires forall n :: Older(w0, n, g, "") ==> Left(w0, w, log, from, n)
    ensures forall n :: RunsIn(w, n, g) ==> Survivor(w, log, from, g, n)
  {
    forall n | RunsIn(w, n, g) ensures Survivor(w, log, from, g, n) {
      assert n in w0 && Older(w0, n, g, "");
    }
  }

  /** Drained first, then brought up. */
  lemma {:induction false} RecreatedExclusive(log: seq<Entry>, from: nat, mid: nat, w0: World, w1: World, s: Spec,
                                              serverId: string, g: Group)
    requires from <= mid <= |log| && Drains(log[..mid], from, w0, g, "") && UpOnly(log, mid, w1, s, serverId)
    requires forall n :: RunsIn(w1, n, g) ==> Survivor(w1, log[..mid], from, g, n)
    requires s.name in w1 ==> forall i :: mid <= i < |log| ==> log[i].after == w1
    requires AtMostOne(w0, g) && (s.name in w1 ==> AtMostOne(w1, g))
    ensures Exclusive(log, from, g)
  {
    hide Survivor;
    forall i | from <= i < |log|
      ensures AtMostOne(log[i].after, g) || exists n :: Survivor(log[i].after, log, from, g, n)
    {
      if i < mid {
        assert log[..mid][i] == log[i];
        TrimIsExclusive(w0, log[i].after, g, "");
      } else if s.name !in w1 {
        assert UpEntry(log[i], w1, s, serverId);
        if n :| RunsIn(w1, n, g) {
          SurvivorStays(w1, log[i].after, log[..mid], log, from, g, n, s, serverId);
        } else {
          UpIsExclusive(w1, log[i].after, s, serverId, g);
        }
      }
    }
  }

  lemma {:induction false} SurvivorStays(w1: World, w: World, a: seq<Entry>, b: seq<Entry>, from: nat, g: Group,
                                         n: string, s: Spec, serverId: string)
    requires Survivor(w1, a, from, g, n) && a <= b && Up(w1, w, s, serverId) && s.name !in w1
    ensures Survivor(w, b, from, g, n)
  {
    HappenedStays(a, b, from, Stop(n), Lost);
    HappenedStays(a, b, from, Remove(n), Lost);
  }

  /** When every call works, a recreate succeeds exactly when its gate passes, its hook
      does if it starts anew, and no container outside the group holds its name. */
  predicate Recreates(w0: World, s: Spec, portless: bool, swap: Swap) {
    && GatePasses(swap.looks, [], portless)
    && (RunsNew(w0, s) || (swap.postStart && (s.name in w0 ==> InGroup(w0[s.name], GroupOf(s)))))
  }

  /** At most one container of the group runs, in the containers' fields. */
  lemma {:induction false} AtMostOnePlainly(w: World, s: Spec)
    ensures AtMostOne(w, GroupOf(s)) <==>
            forall m, n ::
              m in w && w[m].running && w[m].managed && w[m].resource == s.resourceId && w[m].service == s.service
              && n in w && w[n].running && w[n].managed && w[n].resource == s.resourceId
              && w[n].service == s.service ==>
                m == n
  {
    forall n: string ensures RunsIn(w, n, GroupOf(s)) <==>
                             n in w && w[n].running && w[n].managed && w[n].resource == s.resourceId
                             && w[n].service == s.service {}
  }

  /** Where two run at once, one of them outlived a stop and a removal that were both lost. */
  lemma {:induction false} ExclusivePlainly(log: seq<Entry>, from: nat, s: Spec, i: nat)
    requires Exclusive(log, from, GroupOf(s)) && from <= i < |log| && !AtMostOne(log[i].after, GroupOf(s))
    ensures var w := log[i].after;
            exists n :: n in w && w[n].running && w[n].managed && w[n].resource == s.resourceId
                && w[n].service == s.service
              && (exists k :: from <= k < |log| && log[k].call == Stop(n) && log[k].fault == Lost)
              && (exists k :: from <= k < |log| && log[k].call == Remove(n) && log[k].fault == Lost)
  {
    var n :| Survivor(log[i].after, log, from, GroupOf(s), n);
    assert n in log[i].after;
  }

  lemma {:induction false} RecreatesPlainly(w0: World, s: Spec, portless: bool, swap: Swap)
    ensures Recreates(w0, s, portless, swap) <==>
            && GatePasses(swap.looks, [], portless)
            && ((s.name in w0 && w0[s.name].running && w0[s.name].hash == Some(s))
                || (swap.postStart
                    && (s.name in w0 ==>
                          w0[s.name].managed && w0[s.name].resource == s.resourceId
                              && w0[s.name].service == s.service)))
  {
  }

  /** performRecreate. No container has an empty name. */
  method PerformRecreate(dk: Daemon, spec: RolloutSpec, serverId: string, swap: Swap) returns (ok: bool)
    requires "" !in dk.world && GenSpec(spec).name != ""
    modifies dk
    ensures old(dk.log) <= dk.log
    ensures AtMostOne(old(dk.world), GroupOf(GenSpec(spec))) ==>
            Exclusive(dk.log, |old(dk.log)|, GroupOf(GenSpec(spec)))
    ensures ok ==> RunsNew(dk.world, GenSpec(spec)) && Happened(dk.log, |old(dk.log)|, Gate(GenSpec(spec).name), Fine)
    ensures ok ==> var s := GenSpec(spec);
              s.name in dk.world && dk.world[s.name].running && dk.world[s.name].hash == Some(s)
    ensures ok ==> forall n :: Older(old(dk.world), n, GroupOf(GenSpec(spec)), GenSpec(spec).name) ==>
              Left(old(dk.world), dk.world, dk.log, |old(dk.log)|, n)
    ensures OthersUntouched(dk.log, |old(dk.log)|, old(dk.world), GroupOf(GenSpec(spec)), GenSpec(spec).name)
    ensures old(dk.script) == [] ==> (ok <==> Recreates(old(dk.world), GenSpec(spec), spec.portless, swap))
    // A generation that fails its gate is left in place for its evidence.
    ensures old(dk.script) == [] && !ok && swap.postStart ==> GenSpec(spec).name in dk.world
  {
    hide Exclusive, OthersUntouched, AtMostOne, Left, Happened;
    ghost var from, w0 := |dk.log|, dk.world;
    var s := GenSpec(spec);
    var g := GroupOf(s);
    assert s.name != "";
    var cur;
    NothingYet(dk.log, w0, g, s.name);
    ok, cur := dk.ContainerInspect(s.name);
    if !ok { return; }
    if cur.Some? && cur.value.running && cur.value.hash == Some(s) {
      ok := RecreateConverged(dk, s, serverId, spec.portless, swap);
    } else {
      ok := RecreateAnew(dk, s, serverId, spec.portless, swap);
    }
  }

  lemma {:induction false} NothingYet(log: seq<Entry>, w: World, g: Group, name: string)
    ensures Exclusive(log, |log|, g) && OthersUntouched(log, |log|, w, g, name)
  {
  }

  /** The generation runs already: gate it again, then drain the others. */
  method RecreateConverged(dk: Daemon, s: Spec, serverId: string, portless: bool, swap: Swap) returns (ok: bool)
    requires RunsNew(dk.world, s)
    modifies dk
    ensures old(dk.log) <= dk.log
    ensures AtMostOne(old(dk.world), GroupOf(s)) ==> Exclusive(dk.log, |old(dk.log)|, GroupOf(s))
    ensures ok ==> RunsNew(dk.world, s) && Happened(dk.log, |old(dk.log)|, Gate(s.name), Fine)
    ensures ok ==> forall n :: Older(old(dk.world), n, GroupOf(s), s.name) ==>
              Left(old(dk.world), dk.world, dk.log, |old(dk.log)|, n)
    ensures OthersUntouched(dk.log, |old(dk.log)|, old(dk.world), GroupOf(s), s.name)
    ensures old(dk.script) == [] ==> ok == GatePasses(swap.looks, [], portless)
    ensures !ok ==> s.name in dk.world
  {
    hide UpOnly, Up, Drains, Left, Happened, Exclusive, OthersUntouched, AtMostOne, Trimmed;
    var g := GroupOf(s);
    ghost var from, w0, l0 := |dk.log|, dk.world, dk.log;
    NothingUp(dk.log, w0, s, serverId);
    UpAtFirst(w0, s, serverId);
    ok := GateHealthy(dk, s, portless, swap.looks, from, w0, serverId);
    ghost var mid, w1, l1 := |dk.log|, dk.world, dk.log;
    NoDrains(dk.log, w1, g, s.name);
    assert dk.log[..mid] == l1;
    if ok {
      ok := DrainOld(dk, g, s.name);
      assert dk.log[..mid] == l1;
      HappenedStays(l1, dk.log, from, Gate(s.name), Fine);
    }
    if AtMostOne(w0, g) { GatedExclusive(dk.log, from, mid, w0, w1, s, serverId, g); }
    ConvergedSpares(dk.log, from, mid, w0, w1, s, serverId);
    if ok { ConvergedEnds(dk.log, from, mid, w0, w1, dk.world, s, serverId); }
  }

  lemma {:induction false} UpAtFirst(w: World, s: Spec, serverId: string)
    ensures s.name in w ==> Up(w, w, s, serverId)
  {
  }

  lemma {:induction false} ConvergedSpares(log: seq<Entry>, from: nat, mid: nat, w0: World, w1: World, s: Spec,
                                           serverId: string)
    requires from <= mid <= |log| && UpOnly(log[..mid], from, w0, s, serverId) && Up(w0, w1, s, serverId)
    requires Drains(log, mid, w1, GroupOf(s), s.name)
    ensures OthersUntouched(log, from, w0, GroupOf(s), s.name)
  {
    forall i | from <= i < |log| ensures SparesOthers(w0, log[i].after, GroupOf(s), s.name) {
      if i < mid {
        assert UpEntry(log[..mid][i], w0, s, serverId);
      } else {
        TrimSpares(w0, w1, log[i].after, GroupOf(s), s.name);
      }
    }
  }

  lemma {:induction false} ConvergedEnds(log: seq<Entry>, from: nat, mid: nat, w0: World, w1: World, w: World,
                                         s: Spec, serverId: string)
    requires from <= mid <= |log| && Up(w0, w1, s, serverId) && Trimmed(w1, w, GroupOf(s), s.name)
    requires UpOnly(log[..mid], from, w0, s, serverId)
    requires RunsNew(w0, s) && s.name in w1 && w1[s.name].running
    requires forall n :: Older(w1, n, GroupOf(s), s.name) ==> Left(w1, w, log, mid, n)
    ensures RunsNew(w, s)
    ensures forall n :: Older(w0, n, GroupOf(s), s.name) ==> Left(w0, w, log, from, n)
  {
    TrimSpares(w0, w1, w, GroupOf(s), s.name);
    assert w1[s.name].(running := false).hash == w0[s.name].(running := false).hash;
    forall n | Older(w0, n, GroupOf(s), s.name) ensures Left(w0, w, log, from, n) {
      assert Older(w1, n, GroupOf(s), s.name) && Left(w1, w, log, mid, n);
      forall i | from <= i < mid
        ensures log[..mid][i].call.name != n
      {
        assert UpEntry(log[..mid][i], w0, s, serverId);
      }
      LeftEarlier(w0, w1, w, log, mid, from, n);
    }
  }

  lemma {:induction false} LeftEarlier(w0: World, w1: World, w: World, log: seq<Entry>, mid: nat, from: nat, n: string)
    requires from <= mid <= |log| && Left(w1, w, log, mid, n) && n in w0 && w0[n] == w1[n]
    requires Unmentioned(log[..mid], from, n)
    ensures Left(w0, w, log, from, n)
  {
    HappenedLater(log, from, mid, Remove(n), Lost);
    HappenedLater(log, from, mid, Stop(n), Lost);
  }

  /** Every generation is removed, then the new one is brought up. */
  method RecreateAnew(dk: Daemon, s: Spec, serverId: string, portless: bool, swap: Swap) returns (ok: bool)
    requires "" !in dk.world && s.name != ""
    modifies dk
    ensures old(dk.log) <= dk.log
    ensures AtMostOne(old(dk.world), GroupOf(s)) ==> Exclusive(dk.log, |old(dk.log)|, GroupOf(s))
    ensures ok ==> RunsNew(dk.world, s) && Happened(dk.log, |old(dk.log)|, Gate(s.name), Fine)
    ensures ok ==> forall n :: Older(old(dk.world), n, GroupOf(s), s.name) ==>
              Left(old(dk.world), dk.world, dk.log, |old(dk.log)|, n)
    ensures OthersUntouched(dk.log, |old(dk.log)|, old(dk.world), GroupOf(s), s.name)
    ensures old(dk.script) == [] ==>
              ok == (swap.postStart && GatePasses(swap.looks, [], portless)
                     && (s.name in old(dk.world) ==> InGroup(old(dk.world)[s.name], GroupOf(s))))
    ensures old(dk.script) == [] && !ok && swap.postStart ==> s.name in dk.world
  {
    hide UpOnly, Up, Drains, Left, Happened, Exclusive, OthersUntouched, AtMostOne, Trimmed, RunsIn, Survivor;
    var g := GroupOf(s);
    ghost var from, w0, l0 := |dk.log|, dk.world, dk.log;
    NothingYet(dk.log, w0, g, s.name);
    ok := DrainOld(dk, g, "");
    if !ok { return; }
    ghost var mid, w1, l1 := |dk.log|, dk.world, dk.log;
    DrainedOut(l1, from, w0, w1, g);
    DrainedName(w0, w1, g, s.name);
    ok := BringUp(dk, s, serverId, portless, swap, false);
    assert dk.log[..mid] == l1;
    if AtMostOne(w0, g) {
      TrimIsExclusive(w0, w1, g, "");
      RecreatedExclusive(dk.log, from, mid, w0, w1, s, serverId, g);
    }
    AnewSpares(dk.log, from, mid, w0, w1, s, serverId);
    if ok {
      AnewEnds(l1, dk.log, from, w0, w1, dk.world, s, serverId);
      EarlierStart(dk.log, mid, from, Gate(s.name), Fine);
    }
  }

  lemma {:induction false} DrainedName(w0: World, w1: World, g: Group, name: string)
    requires Trimmed(w0, w1, g, "")
    ensures name in w1 ==> name in w0
    ensures name in w0 && !Older(w0, name, g, "") ==> name in w1
  {
  }

  lemma {:induction false} AnewSpares(log: seq<Entry>, from: nat, mid: nat, w0: World, w1: World, s: Spec,
                                      serverId: string)
    requires from <= mid <= |log| && Drains(log[..mid], from, w0, GroupOf(s), "") && Trimmed(w0, w1, GroupOf(s), "")
    requires UpOnly(log, mid, w1, s, serverId)
    ensures OthersUntouched(log, from, w0, GroupOf(s), s.name)
  {
    forall i | from <= i < |log| ensures SparesOthers(w0, log[i].after, GroupOf(s), s.name) {
      if i < mid {
        assert log[..mid][i] == log[i];
        TrimSparesAll(w0, log[i].after, GroupOf(s), s.name);
      } else {
        assert UpEntry(log[i], w1, s, serverId);
        TrimSparesAll(w0, w1, GroupOf(s), s.name);
      }
    }
  }

  lemma {:induction false} TrimSparesAll(w0: World, w: World, g: Group, name: string)
    requires Trimmed(w0, w, g, "")
    ensures SparesOthers(w0, w, g, name)
  {
    forall n | n != name && !(n in w0 && InGroup(w0[n], g))
      ensures (n in w <==> n in w0) && (n in w0 ==> w[n] == w0[n])
    {
      assert !Older(w0, n, g, "");
    }
  }

  lemma {:induction false} AnewEnds(a: seq<Entry>, b: seq<Entry>, from: nat, w0: World, w1: World, w: World,
                                    s: Spec, serverId: string)
    requires a <= b && Up(w1, w, s, serverId) && UpOnly(b, |a|, w1, s, serverId) && "" !in w0
    requires forall n :: Older(w0, n, GroupOf(s), "") ==> Left(w0, w1, a, from, n)
    ensures forall n :: Older(w0, n, GroupOf(s), s.name) ==> Left(w0, w, b, from, n)
  {
    forall n | Older(w0, n, GroupOf(s), s.name) ensures Left(w0, w, b, from, n) {
      assert Older(w0, n, GroupOf(s), "");
      forall i | |a| <= i < |b| ensures b[i].call.name != n { assert UpEntry(b[i], w1, s, serverId); }
      LeftStays(w0, w1, w, a, b, from, n);
    }
  }
}
