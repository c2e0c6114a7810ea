/** agent/internal/container: the driver's desired store and what converges, collects and
    purges containers under its lock. */
module Driver {
  import opened Wrappers
  import opened Docker
  import opened Rollout

  // ---- what a document asks of the driver ----

  datatype Stub = Stub(resourceId: string, retain: seq<string>)

  /** One op, decoded; None where its spec does not decode. */
  datatype Work = ProxyTraefik
                | ContainerApply(spec: Option<Spec>)
                | DeployRollout(rollout: Option<RolloutSpec>)
                | DeployRecreate(rollout: Option<RolloutSpec>)
                | ResourceSync(stub: Option<Stub>)
                | Other

  const TraefikContainerName := "sigmahub-traefik"

  predicate NamedBy(op: Work, n: string) {
    match op
    case ProxyTraefik => n == TraefikContainerName
    case ContainerApply(spec) => spec.Some? && n != "" && n == spec.value.name
    case DeployRollout(r) => r.Some? && r.value.container.name != "" && n == GenSpec(r.value).name
    case DeployRecreate(r) => r.Some? && r.value.container.name != "" && n == GenSpec(r.value).name
    case _ => false
  }

  /** The document names this container. */
  predicate Names(doc: seq<Work>, n: string) {
    exists op :: op in doc && NamedBy(op, n)
  }

  /** The names a document asks for, op by op. */
  lemma {:induction false} NamesPlainly(doc: seq<Work>, n: string)
    ensures Names(doc, n) <==>
            exists k :: 0 <= k < |doc| && match doc[k] {
              case ProxyTraefik => n == "sigmahub-traefik"
              case ContainerApply(spec) => spec.Some? && n != "" && n == spec.value.name
              case DeployRollout(r) =>
                r.Some? && r.value.container.name != ""
                && n == r.value.container.name + if r.value.generation == "" then "" else "-" + r.value.generation
              case DeployRecreate(r) =>
                r.Some? && r.value.container.name != ""
                && n == r.value.container.name + if r.value.generation == "" then "" else "-" + r.value.generation
              case _ => false
            }
  {
    forall k | 0 <= k < |doc| ensures doc[k] in doc {}
    forall base: string, g: string
      ensures RolloutName(base, g) == base + if g == "" then "" else "-" + g
    {
      assert base + "" == base;
      assert base + "-" + g == base + ("-" + g);
    }
    if Names(doc, n) {
      var op :| op in doc && NamedBy(op, n);
      var k :| 0 <= k < |doc| && doc[k] == op;
    }
  }

  predicate ClaimedBy(op: Work, g: Group) {
    g.resource != "" &&
    match op
    case DeployRollout(r) => r.Some? && g == GroupOf(r.value.container)
    case DeployRecreate(r) => r.Some? && g == GroupOf(r.value.container)
    case ResourceSync(stub) => stub.Some? && g.resource == stub.value.resourceId && g.service in stub.value.retain
    case _ => false
  }

  /** The document swaps this group itself or asks for it to be retained. */
  ghost predicate Claims(doc: seq<Work>, g: Group) {
    exists op :: op in doc && ClaimedBy(op, g)
  }

  /** The groups it claims: those it swaps, and those a stub asks to retain. */
  lemma {:induction false} ClaimsPlainly(doc: seq<Work>, resource: string, service: string)
    ensures Claims(doc, Group(resource, service)) <==>
            resource != "" && exists k :: 0 <= k < |doc| && match doc[k] {
              case DeployRollout(r) =>
                r.Some? && resource == r.value.container.resourceId && service == r.value.container.service
              case DeployRecreate(r) =>
                r.Some? && resource == r.value.container.resourceId && service == r.value.container.service
              case ResourceSync(stub) => stub.Some? && resource == stub.value.resourceId && service in stub.value.retain
              case _ => false
            }
  {
    forall k | 0 <= k < |doc| ensures doc[k] in doc {}
    if Claims(doc, Group(resource, service)) {
      var op :| op in doc && ClaimedBy(op, Group(resource, service));
      var k :| 0 <= k < |doc| && doc[k] == op;
    }
  }

  function GroupKey(g: Group): string {
    g.resource + "\0" + g.service
  }

  ghost predicate ClaimsKey(doc: seq<Work>, key: string) {
    exists g :: Claims(doc, g) && GroupKey(g) == key
  }

  /** The joined key tells groups apart when their resource ids hold no NUL; services may hold any. */
  lemma {:induction false} GroupKeyInjective(g: Group, h: Group)
    requires '\0' !in g.resource && '\0' !in h.resource && GroupKey(g) == GroupKey(h)
    ensures g == h
  {
    var i, j := |g.resource|, |h.resource|;
    assert GroupKey(g)[i] == '\0' && GroupKey(h)[j] == '\0';
    assert i == j;
    assert g.resource == GroupKey(g)[..i] && g.service == GroupKey(g)[i + 1..];
    assert h.resource == GroupKey(h)[..j] && h.service == GroupKey(h)[j + 1..];
  }

  /** And only then: one NUL in a resource id and two groups share a key. */
  lemma {:induction false} GroupKeyCollides(a: string, b: string, c: string)
    ensures GroupKey(Group(a + "\0" + b, c)) == GroupKey(Group(a, b + "\0" + c))
    ensures Group(a + "\0" + b, c) != Group(a, b + "\0" + c)
  {
    assert |a + "\0" + b| > |a|;
    assert (a + "\0" + b) + "\0" + c == a + "\0" + (b + "\0" + c);
  }

  /** desiredNames. */
  method DesiredNames(doc: seq<Work>) returns (names: set<string>)
    ensures forall n :: n in names <==> Names(doc, n)
  {
    names := {};
    for i := 0 to |doc|
      invariant forall n :: n in names <==> Names(doc[..i], n)
    {
      ghost var before := names;
      match doc[i] {
        case ProxyTraefik => names := names + {TraefikContainerName};
        case ContainerApply(spec) =>
          if spec.Some? && spec.value.name != "" { names := names + {spec.value.name}; }
        case DeployRollout(r) =>
          if r.Some? && r.value.container.name != "" { names := names + {GenSpec(r.value).name}; }
        case DeployRecreate(r) =>
          if r.Some? && r.value.container.name != "" { names := names + {GenSpec(r.value).name}; }
        case _ =>
      }
      assert forall n :: n in names <==> n in before || NamedBy(doc[i], n);
      NamesMore(doc, i);
    }
    assert doc[..|doc|] == doc;
  }

  lemma {:induction false} NamesMore(doc: seq<Work>, i: nat)
    requires i < |doc|
    ensures forall n :: Names(doc[..i + 1], n) <==> Names(doc[..i], n) || NamedBy(doc[i], n)
  {
    assert doc[..i + 1] == doc[..i] + [doc[i]];
    forall n ensures Names(doc[..i + 1], n) <==> Names(doc[..i], n) || NamedBy(doc[i], n) {
      if NamedBy(doc[i], n) { assert doc[i] in doc[..i + 1]; }
      if Names(doc[..i], n) {
        var op :| op in doc[..i] && NamedBy(op, n);
        assert op in doc[..i + 1];
      }
    }
  }

  /** rolloutManagedGroups and the retained groups of protectedGroups. */
  method ProtectedGroups(doc: seq<Work>) returns (keys: set<string>)
    ensures forall k :: k in keys <==> ClaimsKey(doc, k)
  {
    keys := {};
    for i := 0 to |doc|
      invariant forall k :: k in keys <==> ClaimsKey(doc[..i], k)
    {
      var more := KeysOf(doc[i]);
      keys := keys + more;
      ClaimsKeyMore(doc, i);
    }
    assert doc[..|doc|] == doc;
  }

  method KeysOf(op: Work) returns (keys: set<string>)
    ensures forall k :: k in keys <==> KeyClaimedBy(op, k)
  {
    keys := {};
    match op {
      case DeployRollout(r) =>
        if r.Some? && r.value.container.resourceId != "" { keys := {GroupKey(GroupOf(r.value.container))}; }
      case DeployRecreate(r) =>
        if r.Some? && r.value.container.resourceId != "" { keys := {GroupKey(GroupOf(r.value.container))}; }
      case ResourceSync(stub) =>
        if stub.Some? && stub.value.resourceId != "" {
          var rid, retain := stub.value.resourceId, stub.value.retain;
          for i := 0 to |retain|
            invariant forall k :: k in keys <==> exists j :: 0 <= j < i && k == GroupKey(Group(rid, retain[j]))
          {
            keys := keys + {GroupKey(Group(rid, retain[i]))};
          }
          forall k ensures k in keys <==> KeyClaimedBy(op, k) {
            if k in keys {
              var j :| 0 <= j < |retain| && k == GroupKey(Group(rid, retain[j]));
              assert ClaimedBy(op, Group(rid, retain[j]));
            }
            if g :| ClaimedBy(op, g) && GroupKey(g) == k {
              var j :| 0 <= j < |retain| && retain[j] == g.service;
              assert g == Group(rid, retain[j]);
            }
          }
        }
      case _ =>
    }
    assert op.DeployRollout? || op.DeployRecreate? ==>
        forall k :: k in keys ==> ClaimedBy(op, GroupOf(op.rollout.value.container));
  }

  ghost predicate KeyClaimedBy(op: Work, key: string) {
    exists g :: ClaimedBy(op, g) && GroupKey(g) == key
  }

  lemma {:induction false} ClaimsKeyMore(doc: seq<Work>, i: nat)
    requires i < |doc|
    ensures forall k :: ClaimsKey(doc[..i + 1], k) <==> ClaimsKey(doc[..i], k) || KeyClaimedBy(doc[i], k)
  {
    assert doc[..i + 1] == doc[..i] + [doc[i]];
    assert forall op :: op in doc[..i + 1] <==> op in doc[..i] || op == doc[i];
    forall g ensures Claims(doc[..i + 1], g) <==> Claims(doc[..i], g) || ClaimedBy(doc[i], g) {
      if Claims(doc[..i], g) {
        var op :| op in doc[..i] && ClaimedBy(op, g);
        assert op in doc[..i + 1];
      }
      if ClaimedBy(doc[i], g) { assert doc[i] in doc[..i + 1]; }
    }
  }

  /** ownedByAnotherServer. */
  predicate Foreign(c: Container, serverId: string) {
    c.owner != "" && serverId != "" && c.owner != serverId
  }

  /** What a collection for `doc` removes: managed containers that it does not name, no
      other server owns and no claimed group holds. */
  ghost predicate Reaped(doc: seq<Work>, n: string, c: Container, serverId: string) {
    && c.managed && !Names(doc, n) && !Foreign(c, serverId)
    && !(c.resource != "" && ClaimsKey(doc, GroupKey(Group(c.resource, c.service))))
  }

  /** gcReap. */
  method GcReap(l: Listing, want: set<string>, protected: set<string>, serverId: string,
                ghost doc: seq<Work>) returns (reap: bool)
    requires l.c.managed
    requires forall n :: n in want <==> Names(doc, n)
    requires forall k :: k in protected <==> ClaimsKey(doc, k)
    ensures reap <==> Reaped(doc, l.name, l.c, serverId)
  {
    if l.name in want { return false; }
    if Foreign(l.c, serverId) { return false; }
    if l.c.resource != "" && GroupKey(Group(l.c.resource, l.c.service)) in protected { return false; }
    return true;
  }

  /** A group the document claims survives whole, whatever the ids hold. */
  lemma {:induction false} ClaimedIsKept(doc: seq<Work>, n: string, c: Container, serverId: string)
    requires Claims(doc, Group(c.resource, c.service))
    ensures !Reaped(doc, n, c, serverId)
  {
  }

  /** Retaining a group keeps its containers only: its records go, as the document names none of them. */
  lemma {:induction false} RetainedLosesItsRecord(rid: string, svc: string, n: string, c: Container, serverId: string)
    requires rid != "" && c.resource == rid && c.service == svc
    ensures var doc := [ResourceSync(Some(Stub(rid, [svc])))]; !Reaped(doc, n, c, serverId) && !Names(doc, n)
  {
    var doc := [ResourceSync(Some(Stub(rid, [svc])))];
    assert doc[0] in doc && svc in [svc];
    assert ClaimedBy(doc[0], Group(rid, svc));
    assert Claims(doc, Group(rid, svc));
  }

  ghost predicate NulFree(doc: seq<Work>) {
    forall g :: Claims(doc, g) ==> '\0' !in g.resource
  }

  /** With NUL-free resource ids nothing else is spared: exactly the containers go that are
      managed, not named, in no claimed group, and unowned or owned by this server. */
  lemma {:induction false} ReapedExactly(doc: seq<Work>, n: string, c: Container, serverId: string)
    requires NulFree(doc) && '\0' !in c.resource
    ensures Reaped(doc, n, c, serverId) <==>
              c.managed && !Names(doc, n) && !Claims(doc, Group(c.resource, c.service))
              && (c.owner == "" || serverId == "" || c.owner == serverId)
  {
    var g := Group(c.resource, c.service);
    if c.resource != "" && ClaimsKey(doc, GroupKey(g)) {
      var h :| Claims(doc, h) && GroupKey(h) == GroupKey(g);
      GroupKeyInjective(g, h);
    }
    if Claims(doc, g) { assert ClaimsKey(doc, GroupKey(g)); }
  }

  // ---- one container ----

  /** terminalRestart. */
  predicate TerminalRestart(policy: string) {
    policy == "no" || policy == "on-failure"
  }

  /** converged, of the container that has the spec's name. */
  predicate Satisfied(spec: Spec, w: World) {
    && spec.name in w && w[spec.name].hash == Some(spec)
    && (w[spec.name].running || TerminalRestart(spec.restart))
  }

  /** The references that are seeded as files. */
  function FileRefs(refs: seq<SecretRef>): (files: seq<SecretRef>)
  {
    if refs == [] then []
    else if refs[|refs| - 1].envVar then FileRefs(refs[..|refs| - 1])
    else FileRefs(refs[..|refs| - 1]) + [refs[|refs| - 1]]
  }

  /** The file references one by one, in order. */
  lemma {:induction false} FileRefsOne(refs: seq<SecretRef>, ref: SecretRef)
    ensures FileRefs([]) == []
    ensures FileRefs(refs + [ref]) == FileRefs(refs) + if ref.envVar then [] else [ref]
  {
    var more := refs + [ref];
    assert more[..|more| - 1] == refs && more[|more| - 1] == ref;
  }

  /** A container that a driver creates is its own to collect, and with server ids nobody else's. */
  lemma {:induction false} CreatedIsOwn(spec: Spec, serverId: string, other: string)
    ensures !Foreign(Fresh(spec, serverId), serverId)
    ensures serverId != "" && other != "" ==> (Foreign(Fresh(spec, serverId), other) <==> other != serverId)
  {
    FreshLabels(spec, serverId);
  }

  /** Every entry from `from` on is about the container `name` and leaves all others alone. */
  ghost predicate Single(log: seq<Entry>, from: nat, w0: World, name: string) {
    forall i :: from <= i < |log| ==> log[i].call.name == name && OnlyAt(w0, log[i].after, name)
  }

  lemma {:induction false} SingleAtFirst(log: seq<Entry>, w: World, name: string)
    ensures Single(log, |log|, w, name) && OnlyAt(w, w, name)
  {
  }

  lemma {:induction false} ChangesOne(w0: World, v: World, w: World, name: string)
    requires OnlyAt(w0, v, name)
    requires w == v || w == v - {name} || (name in w && w == v[name := w[name]])
    ensures OnlyAt(w0, w, name)
  {
  }

  lemma {:induction false} SingleMore(a: seq<Entry>, b: seq<Entry>, from: nat, w0: World, name: string)
    requires from <= |a| && Single(a, from, w0, name) && a <= b && |b| == |a| + 1
    requires b[|a|].call.name == name && OnlyAt(w0, b[|a|].after, name)
    ensures Single(b, from, w0, name)
  {
    hide OnlyAt;
    forall i | from <= i < |b| ensures b[i].call.name == name && OnlyAt(w0, b[i].after, name) {
      if i < |a| { assert b[i] == a[i]; }
    }
  }

  /** Every entry from `from` on removes a container that `doc` does not keep. */
  ghost predicate Reaps(log: seq<Entry>, from: nat, doc: seq<Work>, w0: World, serverId: string) {
    forall i :: from <= i < |log| ==>
      log[i].call.Remove? && log[i].call.name in w0 && Reaped(doc, log[i].call.name, w0[log[i].call.name], serverId)
  }

  /** `w` is `w0` less some containers that `doc` does not keep. */
  ghost predicate Collected(doc: seq<Work>, w0: World, w: World, serverId: string) {
    && (forall n :: n in w ==> n in w0 && w[n] == w0[n])
    && (forall n :: n in w0 && !Reaped(doc, n, w0[n], serverId) ==> n in w)
  }

  /** The desired store keys each spec by its own name. */
  predicate Keyed(desired: map<string, Spec>) {
    forall n :: n in desired ==> desired[n].name == n
  }

  /** The records a new generation of this spec prunes. */
  ghost function OlderRecords(desired: map<string, Spec>, gen: Spec): set<string> {
    set n | n in desired && n != gen.name && SameGroup(desired[n], gen)
  }

  /** The records a collection asks to be deleted. */
  ghost function Unwanted(desired: map<string, Spec>, want: set<string>): set<string> {
    desired.Keys - want
  }

  ghost function Unnamed(doc: seq<Work>, desired: map<string, Spec>): set<string> {
    set n | n in desired && !Names(doc, n)
  }

  /** How many store calls deleting `n` records after a list makes: a list that fails is the only one. */
  function StoreCalls(script: seq<Fault>, n: nat): nat {
    if FirstFine(script, 1) then 1 + n else 1
  }

  predicate FirstFine(script: seq<Fault>, n: nat) {
    forall i :: 0 <= i < n && i < |script| ==> script[i].Fine?
  }

  function Dropped(script: seq<Fault>, n: nat): seq<Fault> {
    if n <= |script| then script[n..] else []
  }

  lemma {:induction false} FirstFineMore(script: seq<Fault>, n: nat)
    ensures FirstFine(script, n + 1) <==>
            FirstFine(script, n) && (Dropped(script, n) == [] || Dropped(script, n)[0].Fine?)
    ensures Dropped(script, n + 1) == if Dropped(script, n) == [] then [] else Dropped(script, n)[1..]
  {
    if n < |script| { assert Dropped(script, n)[0] == script[n]; }
  }

  /** What holds while a group is pruned: of its older records `gone` have been asked for to
      be deleted, one call each after the list. */
  ghost predicate Pruning(stored: map<string, Spec>, older: set<string>, left: set<string>, gone: set<string>,
                          desired: map<string, Spec>, script: seq<Fault>, now: seq<Fault>) {
    && Pruned(stored, desired) && older <= stored.Keys
    && gone <= older && gone !! left && older <= gone + left
    && now == Dropped(script, 1 + |gone|)
    && (forall n :: n in stored && n !in gone ==> n in desired)
    && ((forall n :: n in gone ==> n !in desired) <==> FirstFine(script, 1 + |gone|))
  }

  lemma {:induction false} PruningStarts(stored: map<string, Spec>, older: set<string>, script: seq<Fault>)
    requires older <= stored.Keys && (script == [] || script[0].Fine?)
    ensures Pruning(stored, older, stored.Keys, {}, stored, script, if script == [] then [] else script[1..])
  {
  }

  lemma {:induction false} PruningReads(stored: map<string, Spec>, older: set<string>, left: set<string>,
                                        gone: set<string>,
                                        desired: map<string, Spec>, script: seq<Fault>, now: seq<Fault>, name: string)
    requires Pruning(stored, older, left, gone, desired, script, now) && name in left && name in stored
    ensures name in desired && name !in gone
  {
  }

  lemma {:induction false} PruningSkips(stored: map<string, Spec>, older: set<string>, left: set<string>,
                                        gone: set<string>,
                                        desired: map<string, Spec>, script: seq<Fault>, now: seq<Fault>, name: string)
    requires Pruning(stored, older, left, gone, desired, script, now) && name !in older
    ensures Pruning(stored, older, left - {name}, gone, desired, script, now)
  {
    hide FirstFine, Dropped;
  }

  lemma {:induction false} PruningTakes(stored: map<string, Spec>, older: set<string>, left: set<string>,
                                        gone: set<string>,
                                        desired: map<string, Spec>, desired': map<string, Spec>,
                                        script: seq<Fault>, now: seq<Fault>, now': seq<Fault>, name: string)
    requires Pruning(stored, older, left, gone, desired, script, now) && name in left && name in older
    requires desired' == if now == [] || now[0].Fine? then desired - {name} else desired
    requires now' == if now == [] then [] else now[1..]
    ensures Pruning(stored, older, left - {name}, gone + {name}, desired', script, now')
  {
    hide FirstFine, Dropped;
    FirstFineMore(script, 1 + |gone|);
    assert |gone + {name}| == |gone| + 1;
    assert name in desired;
    assert forall n :: n in gone ==> (n in desired' <==> n in desired);
  }

  lemma {:induction false} PruningDone(stored: map<string, Spec>, older: set<string>, gone: set<string>,
                                       desired: map<string, Spec>, script: seq<Fault>, now: seq<Fault>)
    requires Pruning(stored, older, {}, gone, desired, script, now)
    ensures Pruned(stored, desired) && now == Dropped(script, 1 + |older|)
    ensures forall n :: n in stored && n !in older ==> n in desired
    ensures (forall n :: n in older ==> n !in desired) <==> FirstFine(script, 1 + |older|)
  {
    hide FirstFine, Dropped;
    assert gone == older;
  }

  /** A process that dies among its first `n` calls gets nothing done after them. */
  lemma {:induction false} DiesThen(script: seq<Fault>, n: nat)
    ensures Dies(script) && !FirstFine(script, n) ==> AllLost(Dropped(script, n))
  {
  }

  /** What a collection has made of the records `stored`. */
  ghost predicate Kept(stored: map<string, Spec>, want: set<string>, desired: map<string, Spec>,
                       script: seq<Fault>, now: seq<Fault>) {
    && Pruned(stored, desired) && (forall n :: n in stored && n in want ==> n in desired)
    && (Dies(script) ==> AllLost(now) || forall n :: n in desired ==> n in want)
    && ((forall n :: n in desired ==> n in want) <==>
        Unwanted(stored, want) == {} || FirstFine(script, 1 + |Unwanted(stored, want)|))
    && (!FirstFine(script, 1) ==> desired == stored)
    && now == Dropped(script, StoreCalls(script, |Unwanted(stored, want)|))
  }

  lemma {:induction false} KeepsUnread(stored: map<string, Spec>, want: set<string>, script: seq<Fault>)
    requires script != [] && !script[0].Fine?
    ensures Kept(stored, want, stored, script, script[1..])
  {
    assert !FirstFine(script, 1 + |Unwanted(stored, want)|);
    WantedLeft(stored, want, stored);
    if n :| n in Unwanted(stored, want) { assert n in stored; }
  }

  lemma {:induction false} KeepsWanted(stored: map<string, Spec>, want: set<string>, gone: set<string>,
                                       desired: map<string, Spec>, script: seq<Fault>, now: seq<Fault>)
    requires Pruning(stored, Unwanted(stored, want), {}, gone, desired, script, now)
    requires script == [] || script[0].Fine?
    ensures Kept(stored, want, desired, script, now)
  {
    StoreDone(script, |Unwanted(stored, want)|);
    hide Dropped, Pruning, Dies, AllLost, FirstFine, Pruned, StoreCalls;
    PruningDone(stored, Unwanted(stored, want), gone, desired, script, now);
    DiesThen(script, 1 + |Unwanted(stored, want)|);
    WantedLeft(stored, want, desired);
    assert Unwanted(stored, want) == {} ==> |Unwanted(stored, want)| == 0;
    assert forall n :: n in stored && n in want ==> n !in Unwanted(stored, want);
    hide Unwanted;
  }

  lemma {:induction false} WantedLeft(stored: map<string, Spec>, want: set<string>, desired: map<string, Spec>)
    requires Pruned(stored, desired)
    ensures (forall n :: n in desired ==> n in want) <==> forall n :: n in Unwanted(stored, want) ==> n !in desired
  {
    if forall n :: n in Unwanted(stored, want) ==> n !in desired {
      forall n | n in desired ensures n in want {
        assert n !in Unwanted(stored, want);
      }
    }
  }

  lemma {:induction false} StoreDone(script: seq<Fault>, n: nat)
    ensures |script| <= StoreCalls(script, n) ==> Dropped(script, StoreCalls(script, n)) == []
    ensures script == [] ==> FirstFine(script, 1 + n) && |script| <= StoreCalls(script, n)
    ensures script == [] || script[0].Fine? ==> FirstFine(script, 1) && StoreCalls(script, n) == 1 + n
  {
  }

  /** A group without older records needs no call to work. */
  lemma {:induction false} PruningEnds(stored: map<string, Spec>, older: set<string>, script: seq<Fault>)
    ensures FirstFine(script, 1 + |older|) ==> script == [] || script[0].Fine?
    ensures older == {} ==> |older| == 0
    ensures script == [] ==> FirstFine(script, 1 + |older|) && Dropped(script, 1 + |older|) == []
    ensures FirstFine(script, 1) <==> script == [] || script[0].Fine?
  {
  }

  predicate SameGroup(a: Spec, b: Spec) {
    GroupOf(a) == GroupOf(b)
  }

  class Driver {
    const dk: Daemon
    const serverId: string
    /** Whether the control plane can be asked for secrets; the names it provides for a
        resource, absent where fetching fails; and the containers whose files can be seeded. */
    const source: bool
    const provided: map<string, set<string>>
    const seedable: set<string>

    /** The desired store. Its calls fail as the daemon's script says: a process that dies
        loses both kinds of call from the same moment on. */
    var desired: map<string, Spec>

    constructor (dk: Daemon, serverId: string, source: bool, provided: map<string, set<string>>, seedable: set<string>,
                 desired: map<string, Spec>)
      ensures this.dk == dk && this.serverId == serverId && this.source == source
      ensures this.provided == provided && this.seedable == seedable
      ensures this.desired == desired
    {
      this.dk, this.serverId, this.source, this.provided, this.seedable := dk, serverId, source, provided, seedable;
      this.desired := desired;
    }

    // ---- the store ----

    method StoreCall() returns (ok: bool)
      modifies dk`script
      ensures ok <==> old(dk.script) == [] || old(dk.script)[0].Fine?
      ensures dk.script == if old(dk.script) == [] then [] else old(dk.script)[1..]
    {
      var f := dk.Next();
      ok := f.Fine?;
    }

    method PutDesired(name: string, spec: Spec) returns (ok: bool)
      modifies dk`script, this`desired
      ensures desired == if ok then old(desired)[name := spec] else old(desired)
      ensures ok <==> old(dk.script) == [] || old(dk.script)[0].Fine?
      ensures dk.script == if old(dk.script) == [] then [] else old(dk.script)[1..]
    {
      ok := StoreCall();
      if ok { desired := desired[name := spec]; }
    }

    method DeleteDesired(name: string) returns (ok: bool)
      modifies dk`script, this`desired
      ensures desired == if ok then old(desired) - {name} else old(desired)
      ensures ok <==> old(dk.script) == [] || old(dk.script)[0].Fine?
      ensures dk.script == if old(dk.script) == [] then [] else old(dk.script)[1..]
    {
      ok := StoreCall();
      if ok { desired := desired - {name}; }
    }

    method HasDesired(name: string) returns (ok: bool, found: bool)
      modifies dk`script
      ensures ok ==> found == (name in desired)
      ensures old(dk.script) == [] ==> ok && dk.script == []
    {
      ok := StoreCall();
      found := ok && name in desired;
    }

    method AllDesired() returns (ok: bool, all: map<string, Spec>)
      modifies dk`script
      ensures all == if ok then desired else map[]
      ensures ok <==> old(dk.script) == [] || old(dk.script)[0].Fine?
      ensures dk.script == if old(dk.script) == [] then [] else old(dk.script)[1..]
    {
      ok := StoreCall();
      all := if ok then desired else map[];
    }

    // ---- converge ----

    /** The control plane provides every secret the spec refers to. */
    predicate Provides(spec: Spec) {
      spec.secretRefs == [] || !source
      || (spec.resourceId in provided
          && forall i :: 0 <= i < |spec.secretRefs| ==> spec.secretRefs[i].name in provided[spec.resourceId])
    }

    /** Its secret files, if any, can be seeded once it runs. */
    predicate Seeds(spec: Spec) {
      !source || FileRefs(spec.secretRefs) == [] || spec.name in seedable
    }

    method ResolveSecrets(spec: Spec) returns (ok: bool, files: seq<SecretRef>)
      ensures ok <==> Provides(spec)
      ensures ok <==> !source || spec.secretRefs == []
                      || (spec.resourceId in provided
                          && forall ref :: ref in spec.secretRefs ==> ref.name in provided[spec.resourceId])
      ensures ok ==> files == if source then FileRefs(spec.secretRefs) else []
    {
      files := [];
      if |spec.secretRefs| == 0 || !source { return true, []; }
      if spec.resourceId !in provided { return false, []; }
      for i := 0 to |spec.secretRefs|
        invariant forall k :: 0 <= k < i ==> spec.secretRefs[k].name in provided[spec.resourceId]
        invariant files == FileRefs(spec.secretRefs[..i])
      {
        if spec.secretRefs[i].name !in provided[spec.resourceId] { return false, []; }
        assert spec.secretRefs[..i + 1][..i] == spec.secretRefs[..i];
        if !spec.secretRefs[i].envVar { files := files + [spec.secretRefs[i]]; }
      }
      assert spec.secretRefs[..|spec.secretRefs|] == spec.secretRefs;
      ok := true;
    }

    /** converge. */
    method Converge(spec: Spec) returns (ok: bool)
      modifies dk
      ensures old(dk.log) <= dk.log && Single(dk.log, |old(dk.log)|, old(dk.world), spec.name)
      ensures OnlyAt(old(dk.world), dk.world, spec.name)
      ensures ok ==> Satisfied(spec, dk.world)
      ensures ok && !Satisfied(spec, old(dk.world)) ==> dk.world[spec.name] == Fresh(spec, serverId).(running := true)
      ensures Satisfied(spec, old(dk.world)) || !Provides(spec) ==> dk.log == old(dk.log) && dk.world == old(dk.world)
      ensures old(dk.script) == [] && !Satisfied(spec, old(dk.world)) && Provides(spec) ==> dk.log != old(dk.log)
      ensures old(dk.script) == [] ==>
              dk.script == [] && (ok <==> Satisfied(spec, old(dk.world)) || (Provides(spec) && Seeds(spec)))
      ensures old(dk.script) == [] && !ok && Provides(spec) ==> spec.name !in dk.world
    {
      hide Single;
      ghost var w0, from, l0 := dk.world, |dk.log|, dk.log;
      SingleAtFirst(dk.log, w0, spec.name);
      var cur;
      ok, cur := dk.ContainerInspect(spec.name);
      if !ok { return; }
      if cur.Some? && cur.value.hash == Some(spec) && (cur.value.running || TerminalRestart(spec.restart)) {
        return true;
      }
      var files;
      ok, files := ResolveSecrets(spec);
      if !ok { return; }
      if cur.Some? {
        var removed, _ := dk.ContainerRemove(spec.name);
        SingleMore(l0, dk.log, from, w0, spec.name);
        if !removed { return false; }
      }
      ok := CreateAndSeed(spec, files, from, w0);
    }

    /** The rest of converge, once the name is free. */
    method CreateAndSeed(spec: Spec, files: seq<SecretRef>, ghost from: nat, ghost w0: World) returns (ok: bool)
      requires from <= |dk.log| && Single(dk.log, from, w0, spec.name) && OnlyAt(w0, dk.world, spec.name)
      requires spec.name !in dk.world
      modifies dk
      ensures old(dk.log) < dk.log && Single(dk.log, from, w0, spec.name) && OnlyAt(w0, dk.world, spec.name)
      ensures ok ==> spec.name in dk.world && dk.world[spec.name] == Fresh(spec, serverId).(running := true)
      ensures old(dk.script) == [] ==>
                dk.script == [] && ok == (files == [] || spec.name in seedable) && (!ok ==> spec.name !in dk.world)
    {
      hide Single, Fresh, OnlyAt;
      ok := CreateAndStart(spec, from, w0);
      if !ok || |files| == 0 { return; }
      var seen, cur := dk.ContainerInspect(spec.name);
      if !seen || cur.None? || !cur.value.running || spec.name !in seedable {
        ghost var l, v := dk.log, dk.world;
        var _, _ := dk.ContainerRemove(spec.name);
        ChangesOne(w0, v, dk.world, spec.name);
        SingleMore(l, dk.log, from, w0, spec.name);
        ok := false;
      }
    }

    method CreateAndStart(spec: Spec, ghost from: nat, ghost w0: World) returns (ok: bool)
      requires from <= |dk.log| && Single(dk.log, from, w0, spec.name) && OnlyAt(w0, dk.world, spec.name)
      requires spec.name !in dk.world
      modifies dk
      ensures old(dk.log) < dk.log && Single(dk.log, from, w0, spec.name) && OnlyAt(w0, dk.world, spec.name)
      ensures ok ==> spec.name in dk.world && dk.world[spec.name] == Fresh(spec, serverId).(running := true)
      ensures old(dk.script) == [] ==> ok && dk.script == []
    {
      hide Single, Fresh, OnlyAt;
      ghost var l0, v0 := dk.log, dk.world;
      ghost var f;
      ok, f := dk.ContainerCreate(spec.name, Fresh(spec, serverId));
      ChangesOne(w0, v0, dk.world, spec.name);
      SingleMore(l0, dk.log, from, w0, spec.name);
      if !ok { return; }
      ghost var l1, v1 := dk.log, dk.world;
      ok, f := dk.ContainerStart(spec.name);
      ChangesOne(w0, v1, dk.world, spec.name);
      SingleMore(l1, dk.log, from, w0, spec.name);
    }

    // ---- reconcile ----

    /** Nothing more can be done for this spec: it is satisfied, or lacks its secrets. */
    predicate Settled(spec: Spec, w: World) {
      Satisfied(spec, w) || !Provides(spec)
    }

    /** reconcileOne, with the spec of an earlier snapshot. */
    method ReconcileOne(name: string, spec: Spec)
      requires spec.name == name
      modifies dk
      ensures old(dk.log) <= dk.log && Single(dk.log, |old(dk.log)|, old(dk.world), name)
      ensures OnlyAt(old(dk.world), dk.world, name)
      ensures name !in desired || Settled(spec, old(dk.world)) ==> dk.log == old(dk.log) && dk.world == old(dk.world)
      ensures old(dk.script) == [] && name in desired && !Settled(spec, old(dk.world)) ==> dk.log != old(dk.log)
      ensures old(dk.script) == [] ==> dk.script == []
      ensures old(dk.script) == [] && name in desired ==>
                (Satisfied(spec, dk.world) <==> Satisfied(spec, old(dk.world)) || (Provides(spec) && Seeds(spec)))
      // Afterwards it has the spec's hash and runs, unless it had that hash, did not run and
      // its restart policy lets it end.
      ensures old(dk.script) == [] && name in desired && Provides(spec) && Seeds(spec) ==>
                && name in dk.world && dk.world[name].hash == Some(spec)
                && (!dk.world[name].running <==>
                    && name in old(dk.world) && old(dk.world)[name].hash == Some(spec) && !old(dk.world)[name].running
                    && (spec.restart == "no" || spec.restart == "on-failure"))
    {
      hide Single;
      SingleAtFirst(dk.log, dk.world, name);
      var ok, still := HasDesired(name);
      if !ok || !still { return; }
      var cur;
      ok, cur := dk.ContainerInspect(name);
      if !ok { return; }
      if cur.Some? && cur.value.hash == Some(spec) && (cur.value.running || TerminalRestart(spec.restart)) { return; }
      var _ := Converge(spec);
    }

    /** Reconcile: one pass, over the records as they are when it starts. */
    method Reconcile()
      requires Keyed(desired)
      modifies dk
      // Only containers with a desired record are touched, at every step.
      ensures old(dk.log) <= dk.log && Within(dk.log, |old(dk.log)|, old(dk.world), desired.Keys)
      ensures Same(old(dk.world), dk.world, desired.Keys)
      // A satisfied container is never touched, whatever fails.
      ensures forall n :: n in desired && Settled(desired[n], old(dk.world)) ==> OnlyAtName(old(dk.world), dk.world, n)
      ensures (forall n :: n in desired ==> Settled(desired[n], old(dk.world))) ==>
              dk.log == old(dk.log) && dk.world == old(dk.world)
      // With every call working something is done exactly if some container is not settled,
      ensures old(dk.script) == [] ==>
              (dk.log == old(dk.log) <==> forall n :: n in desired ==> Settled(desired[n], old(dk.world)))
      // and exactly those converge that can.
      ensures old(dk.script) == [] ==>
                dk.script == []
                && forall n :: n in desired ==>
                     (Satisfied(desired[n], dk.world) <==>
                      Satisfied(desired[n], old(dk.world)) || (Provides(desired[n]) && Seeds(desired[n])))
    {
      hide Single, Within, Provides, Seeds, OnlyAt, Same, Satisfied;
      ghost var w0, from := dk.world, |dk.log|;
      WithinAtFirst(dk.log, w0, desired.Keys);
      var ok, all := AllDesired();
      if !ok { return; }
      var left := all.Keys;
      ghost var done: set<string> := {};
      while left != {}
        invariant left !! done && left + done == desired.Keys && all == desired
        invariant old(dk.log) <= dk.log && Within(dk.log, from, w0, desired.Keys) && Same(w0, dk.world, done)
        invariant forall n :: n in done && Settled(desired[n], w0) ==> OnlyAtName(w0, dk.world, n)
        invariant (forall n :: n in desired ==> Settled(desired[n], w0)) ==> dk.log == old(dk.log) && dk.world == w0
        invariant old(dk.script) == [] ==>
                  (dk.log == old(dk.log) <==> forall n :: n in done ==> Settled(desired[n], w0))
        invariant old(dk.script) == [] ==>
                    dk.script == []
                    && forall n :: n in done ==>
                         (Satisfied(desired[n], dk.world) <==>
                             Satisfied(desired[n], w0) || (Provides(desired[n]) && Seeds(desired[n])))
        decreases left
      {
        var name :| name in left;
        left := left - {name};
        ghost var l1, w1 := dk.log, dk.world;
        SameReads(w0, w1, done, name, desired[name]);
        ReconcileOne(name, all[name]);
        SameMore(w0, w1, dk.world, done, name);
        WithinMore(l1, dk.log, from, w0, w1, desired.Keys, done, name);
        DoneStays(w1, dk.world, desired, done, name);
        done := done + {name};
      }
      assert done == desired.Keys;
    }

    /** Two passes with every call working; `between` is the world and `log` the log after
        the first. What can be satisfied then is. The second pass leaves both as they are
        exactly if every provided container is satisfied or can have its secret files
        seeded: one that cannot is created and removed again on every pass. */
    method ReconcileTwice() returns (ghost between: World, ghost log: seq<Entry>)
      requires Keyed(desired) && dk.script == []
      modifies dk
      ensures old(dk.log) <= log && Same(old(dk.world), between, desired.Keys)
      ensures forall n :: n in desired ==>
                (Satisfied(desired[n], between) <==>
                 Satisfied(desired[n], old(dk.world)) || (Provides(desired[n]) && Seeds(desired[n])))
      ensures (dk.log == log && dk.world == between) <==>
              forall n :: n in desired && Provides(desired[n]) ==>
                  Satisfied(desired[n], old(dk.world)) || Seeds(desired[n])
    {
      hide Provides, Seeds, Same, Satisfied;
      Reconcile();
      between, log := dk.world, dk.log;
      Reconcile();
    }

    // ---- container.apply ----

    /** opContainerApply, from its decoded spec on. */
    method ApplyContainer(spec: Spec) returns (ok: bool)
      requires Keyed(desired)
      modifies dk, this`desired
      ensures Keyed(desired)
      ensures old(dk.log) <= dk.log && Single(dk.log, |old(dk.log)|, old(dk.world), spec.name)
      ensures OnlyAt(old(dk.world), dk.world, spec.name)
      ensures ok ==> Satisfied(spec, dk.world) && desired == old(desired)[spec.name := spec]
      ensures !ok ==> desired == old(desired)
      ensures old(dk.script) == [] ==>
                dk.script == []
                && (ok <==> Satisfied(spec, old(dk.world)) || (Provides(spec) && Seeds(spec)))
    {
      ok := Converge(spec);
      if !ok { return; }
      ok := PutDesired(spec.name, spec);
    }

    // ---- collection ----

    /** GC, with the document's ops decoded. */
    method Gc(doc: seq<Work>)
      modifies dk, this`desired
      // The records: none is added or changed, named ones stay, and with every call working the rest go.
      ensures Pruned(old(desired), desired) && forall n :: n in old(desired) && Names(doc, n) ==> n in desired
      ensures old(dk.script) == [] ==>
              dk.script == [] && forall n :: n in desired <==> n in old(desired) && Names(doc, n)
      // A process that dies half-way has removed no container whose record is still there.
      ensures Dies(old(dk.script)) && dk.script != [] ==>
                forall n :: n in old(dk.world) && n !in dk.world ==> n !in desired
      // The records all go exactly if every call of the store works; all stay if their list fails.
      ensures (forall n :: n in desired ==> Names(doc, n)) <==>
              Unnamed(doc, old(desired)) == {} || FirstFine(old(dk.script), 1 + |Unnamed(doc, old(desired))|)
      ensures !FirstFine(old(dk.script), 1) ==> desired == old(desired)
      // The containers likewise.
      ensures Collected(doc, old(dk.world), dk.world, serverId)
      ensures old(dk.log) <= dk.log && Reaps(dk.log, |old(dk.log)|, doc, old(dk.world), serverId)
      // With every call of the daemon working they all go, whatever became of their records.
      ensures |old(dk.script)| <= StoreCalls(old(dk.script), |Unnamed(doc, old(desired))|) ==>
                dk.script == []
                && forall n :: n in dk.world <==> n in old(dk.world) && !Reaped(doc, n, old(dk.world)[n], serverId)
      // Nothing to collect, nothing done.
      ensures (forall n :: n in old(dk.world) ==> !Reaped(doc, n, old(dk.world)[n], serverId)) ==> dk.log == old(dk.log)
      // A container of another server, or one that is not managed, stays as it is whatever happens.
      ensures serverId != "" ==>
                forall n :: n in old(dk.world) && old(dk.world)[n].owner != "" && old(dk.world)[n].owner != serverId ==>
                  n in dk.world && dk.world[n] == old(dk.world)[n]
      ensures forall n :: n in old(dk.world) && !old(dk.world)[n].managed ==>
                n in dk.world && dk.world[n] == old(dk.world)[n]
    {
      hide Reaped, Names, Reaps, Collected, FirstFine, Dropped;
      ghost var w0 := dk.world;
      var want := DesiredNames(doc);
      assert Unnamed(doc, desired) == Unwanted(desired, want);
      StoreDone(dk.script, |Unwanted(desired, want)|);
      PruneDesired(want);
      CollectContainers(doc, want);
      CollectedUnnamed(doc, w0, dk.world, serverId);
      CollectedSpares(doc, w0, dk.world, serverId);
    }

    /** Collecting for the same document again does nothing to what the first collection left. */
    method GcTwice(doc: seq<Work>) returns (ghost between: World, ghost records: map<string, Spec>,
                   ghost log: seq<Entry>)
      requires dk.script == []
      modifies dk, this`desired
      ensures dk.world == between && desired == records && dk.log == log && old(dk.log) <= log
      ensures forall n :: n in between <==> n in old(dk.world) && !Reaped(doc, n, old(dk.world)[n], serverId)
      ensures forall n :: n in records <==> n in old(desired) && Names(doc, n)
    {
      hide Reaped, Names, Reaps;
      Gc(doc);
      between, records, log := dk.world, desired, dk.log;
      Gc(doc);
      assert dk.world == between && desired == records;
    }

    /** The second half of GC. */
    method CollectContainers(doc: seq<Work>, want: set<string>)
      requires forall n :: n in want <==> Names(doc, n)
      modifies dk
      ensures Collected(doc, old(dk.world), dk.world, serverId)
      ensures old(dk.log) <= dk.log && Reaps(dk.log, |old(dk.log)|, doc, old(dk.world), serverId)
      ensures old(dk.script) == [] ==>
                dk.script == []
                && forall n :: n in dk.world <==> n in old(dk.world) && !Reaped(doc, n, old(dk.world)[n], serverId)
      ensures (forall n :: n in old(dk.world) ==> !Reaped(doc, n, old(dk.world)[n], serverId)) ==> dk.log == old(dk.log)
      ensures AllLost(old(dk.script)) && dk.script != [] ==> dk.world == old(dk.world)
      ensures old(dk.script) == [] ==> dk.script == []
    {
      hide Reaped, Names, Reaps, Collected;
      ghost var w0, from := dk.world, |dk.log|;
      var protected := ProtectedGroups(doc);
      var ok, list := dk.ContainerList();
      NothingCollected(dk.log, doc, w0, serverId);
      if !ok { return; }
      for i := 0 to |list|
        invariant old(dk.log) <= dk.log && Reaps(dk.log, from, doc, w0, serverId)
                  && Collected(doc, w0, dk.world, serverId)
        invariant old(dk.script) == [] ==>
                    dk.script == [] && forall k :: 0 <= k < i && Reaped(doc, list[k].name, list[k].c, serverId) ==>
                        list[k].name !in dk.world
        invariant dk.log == old(dk.log) || exists n :: n in w0 && Reaped(doc, n, w0[n], serverId)
        invariant AllLost(old(dk.script)) ==> dk.script == []
      {
        var reap := GcReap(list[i], want, protected, serverId, doc);
        if reap {
          var n := list[i].name;
          ghost var l1, w1 := dk.log, dk.world;
          var _, f := dk.ContainerRemove(n);
          CollectedMore(doc, w0, w1, dk.world, serverId, n);
          ReapsMore(l1, dk.log, from, doc, w0, serverId);
          assert n in w0 && Reaped(doc, n, w0[n], serverId);
        }
      }
      if old(dk.script) == [] {
        CollectedAll(doc, list, w0, dk.world, serverId);
      }
    }

    /** The first half of GC: the records of containers the document does not name. */
    method PruneDesired(want: set<string>)
      modifies dk`script, this`desired
      ensures Kept(old(desired), want, desired, old(dk.script), dk.script)
    {
      ghost var unwanted, script := Unwanted(desired, want), dk.script;
      var ok, stored := AllDesired();
      if !ok {
        KeepsUnread(desired, want, script);
        return;
      }
      var left := stored.Keys;
      ghost var gone: set<string> := {};
      PruningStarts(stored, unwanted, script);
      hide FirstFine, Dropped, Pruning, Kept;
      while left != {}
        invariant left <= stored.Keys && Pruning(stored, unwanted, left, gone, desired, script, dk.script)
        decreases left
      {
        var name :| name in left;
        ghost var was, d, s := left, desired, dk.script;
        left := left - {name};
        PruningReads(stored, unwanted, was, gone, d, script, s, name);
        if name !in want {
          var _ := DeleteDesired(name);
          PruningTakes(stored, unwanted, was, gone, d, desired, script, s, dk.script, name);
          gone := gone + {name};
        } else {
          PruningSkips(stored, unwanted, was, gone, d, script, s, name);
        }
      }
      KeepsWanted(stored, want, gone, desired, script, dk.script);
    }

    /** RemoveManagedContainers: the error it returns collects those of every step. */
    method RemoveManagedContainers() returns (ok: bool)
      modifies dk, this`desired
      ensures Pruned(old(desired), desired) && Purged(old(dk.world), dk.world, serverId)
      // Success leaves no record, and no managed container but those of another server.
      ensures ok ==>
                desired == map[]
                && forall n :: n in dk.world && dk.world[n].managed ==>
                     dk.world[n].owner != "" && serverId != "" && dk.world[n].owner != serverId
      // Those, and what is not managed, stay as they are whatever happens.
      ensures serverId != "" ==>
                forall n :: n in old(dk.world) && old(dk.world)[n].owner != "" && old(dk.world)[n].owner != serverId ==>
                  n in dk.world && dk.world[n] == old(dk.world)[n]
      ensures forall n :: n in old(dk.world) && !old(dk.world)[n].managed ==>
                n in dk.world && dk.world[n] == old(dk.world)[n]
      // A process that dies half-way has removed no container whose record is still there.
      ensures Dies(old(dk.script)) && dk.script != [] && dk.world != old(dk.world) ==> desired == map[]
      ensures old(dk.script) == [] ==> ok
    {
      hide Foreign;
      ghost var w0 := dk.world;
      var all, forgot := ForgetAll();
      if !all { return false; }
      var removed := RemoveOwn();
      ok := forgot && removed;
      PurgedSpares(w0, dk.world, serverId);
    }

    method ForgetAll() returns (all: bool, ok: bool)
      modifies dk`script, this`desired
      ensures Pruned(old(desired), desired) && (all && ok ==> desired == map[])
      ensures old(dk.script) == [] ==> all && ok && dk.script == []
      ensures Dies(old(dk.script)) ==> AllLost(dk.script) || desired == map[]
    {
      var stored;
      all, stored := AllDesired();
      if !all { return false, false; }
      ok := true;
      var left := stored.Keys;
      while left != {}
        invariant Pruned(old(desired), desired) && left <= old(desired).Keys
        invariant forall n :: n in desired && n !in left ==> !ok
        invariant old(dk.script) == [] ==> dk.script == [] && ok
        invariant Dies(old(dk.script)) ==> Dies(dk.script) && (AllLost(dk.script) || ok)
        decreases left
      {
        var name :| name in left;
        left := left - {name};
        var gone := DeleteDesired(name);
        ok := ok && gone;
      }
    }

    method RemoveOwn() returns (ok: bool)
      modifies dk
      ensures Purged(old(dk.world), dk.world, serverId)
      ensures ok ==> forall n :: n in dk.world && dk.world[n].managed ==> Foreign(dk.world[n], serverId)
      ensures old(dk.script) == [] ==> ok
      ensures AllLost(old(dk.script)) && dk.script != [] ==> dk.world == old(dk.world)
    {
      hide Foreign;
      ghost var w0 := dk.world;
      var list;
      ok, list := dk.ContainerList();
      if !ok { return; }
      for i := 0 to |list|
        invariant Purged(w0, dk.world, serverId)
        invariant ok ==> forall k :: 0 <= k < i && !Foreign(list[k].c, serverId) ==> list[k].name !in dk.world
        invariant old(dk.script) == [] ==> dk.script == [] && ok
        invariant AllLost(old(dk.script)) ==> dk.script == []
      {
        if !Foreign(list[i].c, serverId) {
          var gone, _ := dk.ContainerRemove(list[i].name);
          ok := ok && gone;
        }
      }
      forall n | ok && n in dk.world && dk.world[n].managed ensures Foreign(dk.world[n], serverId) {
        var i :| 0 <= i < |list| && list[i].name == n;
        assert list[i].c == w0[n] == dk.world[n];
      }
    }

    // ---- deploy.rollout and deploy.recreate ----

    /** persistRolloutGeneration. */
    method PersistGeneration(gen: Spec) returns (ok: bool)
      requires Keyed(desired)
      modifies dk`script, this`desired
      ensures Keyed(desired)
      ensures ok ==> gen.name in desired && desired[gen.name] == gen
      // Records of other groups stay; none but the new one is added or changed.
      ensures forall n ::
                n in old(desired) && n != gen.name
                && (old(desired)[n].resourceId != gen.resourceId || old(desired)[n].service != gen.service) ==>
                  n in desired
      ensures forall n :: n in desired && (n != gen.name || !ok) ==> n in old(desired) && desired[n] == old(desired)[n]
      // With every call working, the new generation is the only record of its group.
      ensures old(dk.script) == [] ==>
                ok
                && forall n ::
                     n in desired && desired[n].resourceId == gen.resourceId && desired[n].service == gen.service ==>
                       n == gen.name
      // Pruned before it is put: the group is left without a record exactly if it had none of
      // this name, the list and every deletion worked, and the put did not.
      ensures (forall n :: n in desired ==> !SameGroup(desired[n], gen)) <==>
              !ok && !(gen.name in old(desired) && SameGroup(old(desired)[gen.name], gen))
              && (OlderRecords(old(desired), gen) == {}
                  || FirstFine(old(dk.script), 1 + |OlderRecords(old(desired), gen)|))
      ensures FirstFine(old(dk.script), 1 + |OlderRecords(old(desired), gen)|) ==>
                (ok <==> FirstFine(old(dk.script), 2 + |OlderRecords(old(desired), gen)|))
    {
      FirstFineMore(dk.script, 1 + |OlderRecords(desired, gen)|);
      PruneGroup(gen);
      hide FirstFine, Dropped;
      ok := PutDesired(gen.name, gen);
    }

    /** The first half: older records of the group. */
    method PruneGroup(gen: Spec)
      requires Keyed(desired)
      modifies dk`script, this`desired
      ensures Pruned(old(desired), desired)
      ensures forall n :: n in old(desired) && n !in OlderRecords(old(desired), gen) ==> n in desired
      ensures (forall n :: n in OlderRecords(old(desired), gen) ==> n !in desired) <==>
              OlderRecords(old(desired), gen) == {} || FirstFine(old(dk.script), 1 + |OlderRecords(old(desired), gen)|)
      ensures old(dk.script) == [] ==> dk.script == []
      ensures FirstFine(old(dk.script), 1 + |OlderRecords(old(desired), gen)|) ==>
                dk.script == Dropped(old(dk.script), 1 + |OlderRecords(old(desired), gen)|)
    {
      ghost var older, script := OlderRecords(desired, gen), dk.script;
      PruningEnds(desired, older, script);
      var listed, stored := AllDesired();
      if !listed { return; }
      var left := stored.Keys;
      ghost var gone: set<string> := {};
      PruningStarts(stored, older, script);
      hide FirstFine, Dropped, Pruning;
      while left != {}
        invariant left <= stored.Keys && Pruning(stored, older, left, gone, desired, script, dk.script)
        decreases left
      {
        var name :| name in left;
        ghost var was, d, s := left, desired, dk.script;
        left := left - {name};
        var same := IsOlder(name, stored[name], gen);
        PruningReads(stored, older, was, gone, d, script, s, name);
        if same {
          var _ := DeleteDesired(name);
          PruningTakes(stored, older, was, gone, d, desired, script, s, dk.script, name);
          gone := gone + {name};
        } else {
          PruningSkips(stored, older, was, gone, d, script, s, name);
        }
      }
      PruningDone(stored, older, gone, desired, script, dk.script);
    }

    method IsOlder(name: string, spec: Spec, gen: Spec) returns (older: bool)
      ensures older <==> name != gen.name && SameGroup(spec, gen)
    {
      older := name != gen.name && spec.resourceId == gen.resourceId && spec.service == gen.service;
    }

    /** opRollout, from its decoded spec on. */
    method ApplyRollout(spec: RolloutSpec, swap: Swap) returns (ok: bool)
      requires Keyed(desired)
      modifies dk, this`desired
      ensures Keyed(desired)
      // A failed rollout leaves the records alone.
      ensures !ok ==> desired == old(desired)
      // A recorded generation is satisfied already: reconciling it would change nothing.
      ensures ok ==> Satisfied(GenSpec(spec), dk.world)
      ensures ok && old(dk.script) == [] ==>
                GenSpec(spec).name in desired && desired[GenSpec(spec).name] == GenSpec(spec)
                && forall n ::
                     n in desired && desired[n].resourceId == spec.container.resourceId
                     && desired[n].service == spec.container.service ==>
                       n == GenSpec(spec).name
    {
      ok := PerformRollout(dk, spec, serverId, swap);
      if !ok { return; }
      var _ := PersistGeneration(GenSpec(spec));
    }
  }

  // ---- frames of a pass ----

  predicate OnlyAtName(w0: World, w: World, n: string) {
    (n in w <==> n in w0) && (n in w ==> w[n] == w0[n])
  }

  /** `w` is `w0` outside `names`. */
  ghost predicate Same(w0: World, w: World, names: set<string>) {
    forall n :: n !in names ==> OnlyAtName(w0, w, n)
  }

  ghost predicate Within(log: seq<Entry>, from: nat, w0: World, names: set<string>) {
    forall i :: from <= i < |log| ==> log[i].call.name in names && Same(w0, log[i].after, names)
  }

  lemma {:induction false} WithinAtFirst(log: seq<Entry>, w: World, names: set<string>)
    ensures Within(log, |log|, w, names) && Same(w, w, {}) && Same(w, w, names)
  {
  }

  lemma {:induction false} SameReads(w0: World, w: World, done: set<string>, name: string, spec: Spec)
    requires Same(w0, w, done) && name !in done && spec.name == name
    ensures Satisfied(spec, w) == Satisfied(spec, w0) && OnlyAtName(w0, w, name)
  {
    assert OnlyAtName(w0, w, name);
  }

  lemma {:induction false} SameMore(w0: World, w1: World, w: World, done: set<string>, name: string)
    requires Same(w0, w1, done) && OnlyAt(w1, w, name)
    ensures Same(w0, w, done + {name})
  {
    forall n | n !in done + {name} ensures OnlyAtName(w0, w, n) {
      assert OnlyAtName(w0, w1, n);
    }
  }

  lemma {:induction false} DoneStays(w1: World, w: World, desired: map<string, Spec>, done: set<string>, name: string)
    requires OnlyAt(w1, w, name) && name !in done && done <= desired.Keys && Keyed(desired)
    ensures forall n :: n in done ==> OnlyAtName(w1, w, n) && Satisfied(desired[n], w) == Satisfied(desired[n], w1)
  {
  }

  lemma {:induction false} WithinMore(a: seq<Entry>, b: seq<Entry>, from: nat, w0: World, w1: World,
                                      names: set<string>, done: set<string>, name: string)
    requires from <= |a| && a <= b && Within(a, from, w0, names) && Same(w0, w1, done)
    requires Single(b, |a|, w1, name) && name in names && done <= names
    ensures Within(b, from, w0, names)
  {
    forall i | from <= i < |b| ensures b[i].call.name in names && Same(w0, b[i].after, names) {
      if i < |a| {
        assert b[i] == a[i];
      } else {
        SameMore(w0, w1, b[i].after, done, name);
        SameWider(w0, b[i].after, done + {name}, names);
      }
    }
  }

  lemma {:induction false} SameWider(w0: World, w: World, names: set<string>, more: set<string>)
    requires Same(w0, w, names) && names <= more
    ensures Same(w0, w, more)
  {
  }

  // ---- frames of a collection ----

  /** Records may have been dropped, nothing else. */
  predicate Pruned(old_: map<string, Spec>, new_: map<string, Spec>) {
    forall n :: n in new_ ==> n in old_ && new_[n] == old_[n]
  }

  /** Managed containers that no other server owns may have gone, nothing else. */
  ghost predicate Purged(w0: World, w: World, serverId: string) {
    && (forall n :: n in w ==> n in w0 && w[n] == w0[n])
    && (forall n :: n in w0 && (!w0[n].managed || Foreign(w0[n], serverId)) ==> n in w)
  }

  lemma {:induction false} PurgedSpares(w0: World, w: World, serverId: string)
    requires Purged(w0, w, serverId)
    ensures forall n ::
              n in w0 && (!w0[n].managed || (serverId != "" && w0[n].owner != "" && w0[n].owner != serverId)) ==>
                n in w && w[n] == w0[n]
    ensures forall n :: n in w && Foreign(w[n], serverId) ==>
              w[n].owner != "" && serverId != "" && w[n].owner != serverId
  {
  }

  lemma {:induction false} CollectedSpares(doc: seq<Work>, w0: World, w: World, serverId: string)
    requires Collected(doc, w0, w, serverId)
    ensures serverId != "" ==>
              forall n :: n in w0 && w0[n].owner != "" && w0[n].owner != serverId ==> n in w && w[n] == w0[n]
    ensures forall n :: n in w0 && !w0[n].managed ==> n in w && w[n] == w0[n]
  {
    hide Names, ClaimsKey;
  }

  lemma {:induction false} NothingCollected(log: seq<Entry>, doc: seq<Work>, w: World, serverId: string)
    ensures Reaps(log, |log|, doc, w, serverId) && Collected(doc, w, w, serverId)
  {
  }

  lemma {:induction false} CollectedMore(doc: seq<Work>, w0: World, w: World, w': World, serverId: string, n: string)
    requires Collected(doc, w0, w, serverId) && (w' == w || w' == w - {n})
    requires n in w0 && Reaped(doc, n, w0[n], serverId)
    ensures Collected(doc, w0, w', serverId)
  {
    hide Reaped;
  }

  lemma {:induction false} ReapsMore(a: seq<Entry>, b: seq<Entry>, from: nat, doc: seq<Work>, w0: World,
                                     serverId: string)
    requires from <= |a| && Reaps(a, from, doc, w0, serverId) && a <= b && |b| == |a| + 1
    requires b[|a|].call.Remove? && b[|a|].call.name in w0
             && Reaped(doc, b[|a|].call.name, w0[b[|a|].call.name], serverId)
    ensures Reaps(b, from, doc, w0, serverId)
  {
    hide Reaped;
    forall i | from <= i < |b|
      ensures b[i].call.Remove? && b[i].call.name in w0 && Reaped(doc, b[i].call.name, w0[b[i].call.name], serverId)
    {
      if i < |a| { assert b[i] == a[i]; }
    }
  }

  lemma {:induction false} CollectedUnnamed(doc: seq<Work>, w0: World, w: World, serverId: string)
    requires Collected(doc, w0, w, serverId)
    ensures forall n :: n in w0 && n !in w ==> !Names(doc, n)
  {
  }

  lemma {:induction false} CollectedAll(doc: seq<Work>, list: seq<Listing>, w0: World, w: World, serverId: string)
    requires Lists(list, w0) && Collected(doc, w0, w, serverId)
    requires forall k :: 0 <= k < |list| && Reaped(doc, list[k].name, list[k].c, serverId) ==> list[k].name !in w
    ensures forall n :: n in w <==> n in w0 && !Reaped(doc, n, w0[n], serverId)
  {
    hide Reaped;
    forall n | n in w0 && Reaped(doc, n, w0[n], serverId) ensures n !in w {
      ReapedIsManaged(doc, n, w0[n], serverId);
      var k :| 0 <= k < |list| && list[k].name == n;
    }
  }

  lemma {:induction false} ReapedIsManaged(doc: seq<Work>, n: string, c: Container, serverId: string)
    ensures Reaped(doc, n, c, serverId) ==> c.managed
  {
  }

  /** A collection in a live process whose read of the records fails, or whose deletion of
      one: the container goes, its record stays, and the next reconcile brings it back. */
  method RecordBringsItBack(spec: Spec, script: seq<Fault>) returns (gone: World, back: World)
    requires spec.secretRefs == [] && (script == [Lost] || script == [Fine, Lost])
    ensures spec.name !in gone && Satisfied(spec, back)
  {
    var c := Fresh(spec, "").(running := true);
    var dk := new Daemon(map[spec.name := c], script);
    var d := new Driver(dk, "", false, map[], {}, map[spec.name := spec]);
    NothingIsNamed(spec.name, c);
    assert Unnamed([], d.desired) == {spec.name};
    assert !FirstFine(script, 2) by { assert script[|script| - 1] == Lost; }
    d.Gc([]);
    assert spec.name in d.desired;
    gone := dk.world;
    assert d.Provides(spec) && d.Seeds(spec);
    d.Reconcile();
    back := dk.world;
  }

  lemma {:induction false} NothingIsNamed(n: string, c: Container)
    ensures Reaped([], n, c, "") <==> c.managed
  {
  }
}
