/** The Docker daemon as agent/internal/container sees it: containers by name, and calls
    that may fail, with or without having taken effect. */
module Docker {
  import opened Wrappers

  datatype SecretRef = SecretRef(name: string, envVar: bool)

  /** A container's desired configuration; `rest` is everything the driver only hashes. */
  datatype Spec = Spec(name: string, resourceId: string, service: string, image: string,
                       restart: string, secretRefs: seq<SecretRef>, labels: map<string, string>, rest: string)

  /** A container and its labels. The spec hash is kept as the spec it is the hash of:
      equal hashes stand for equal specs. */
  datatype Container = Container(running: bool, managed: bool, resource: string, service: string,
                                 owner: string, hash: Option<Spec>)

  type World = map<string, Container>

  datatype Group = Group(resource: string, service: string)

  /** A process that dies: after the first call that fails all are lost. */
  predicate Dies(script: seq<Fault>) {
    forall i, j :: 0 <= i < j < |script| && !script[i].Fine? ==> script[j].Lost?
  }

  predicate AllLost(script: seq<Fault>) {
    forall i :: 0 <= i < |script| ==> script[i].Lost?
  }

  /** The calls that can change something; an unobserved exit or restart of a container;
      and a health gate that passed. */
  datatype Call = Create(name: string) | Start(name: string) | Stop(name: string) | Remove(name: string)
                | Drift(name: string) | Gate(name: string)

  datatype Entry = Entry(call: Call, fault: Fault, after: World)

  datatype Listing = Listing(name: string, c: Container)

  predicate InGroup(c: Container, g: Group) {
    c.managed && c.resource == g.resource && c.service == g.service
  }

  /** The answer to ContainerList: every managed container once, in some order. */
  ghost predicate Lists(list: seq<Listing>, w: World) {
    && (forall i :: 0 <= i < |list| ==> list[i].name in w && w[list[i].name] == list[i].c && list[i].c.managed)
    && (forall n :: n in w && w[n].managed ==> exists i :: 0 <= i < |list| && list[i].name == n)
    && (forall i, j :: 0 <= i < j < |list| ==> list[i].name != list[j].name)
  }

  function Created(w: World, name: string, c: Container, f: Fault): World {
    if name in w || f.Lost? then w else w[name := c]
  }

  function Set(w: World, name: string, running: bool): World {
    if name in w then w[name := w[name].(running := running)] else w
  }

  class Daemon {
    var world: World
    /** How the coming calls go; past its end they all work. */
    var script: seq<Fault>
    /** Every change so far and the world after it. */
    ghost var log: seq<Entry>

    constructor (world: World, script: seq<Fault>)
      ensures this.world == world && this.script == script && log == []
    {
      this.world, this.script, log := world, script, [];
    }

    method Next() returns (f: Fault)
      modifies this`script
      ensures old(script) == [] ==> f == Fine && script == []
      ensures old(script) != [] ==> f == old(script)[0] && script == old(script)[1..]
    {
      if |script| == 0 { return Fine; }
      f := script[0];
      script := script[1..];
    }

    ghost method Note(call: Call, f: Fault)
      modifies this`log
      ensures log == old(log) + [Entry(call, f, world)]
    {
      log := log + [Entry(call, f, world)];
    }

    /** Fails on a name in use. The container is created stopped. */
    method ContainerCreate(name: string, c: Container) returns (ok: bool, ghost f: Fault)
      modifies this
      ensures ok <==> f == Fine && name !in old(world)
      ensures world == Created(old(world), name, c.(running := false), f)
      ensures log == old(log) + [Entry(Create(name), f, world)]
      ensures old(script) == [] ==> f == Fine && script == []
    {
      var fault := Next();
      f := fault;
      ok := fault == Fine && name !in world;
      world := Created(world, name, c.(running := false), fault);
      Note(Create(name), fault);
    }

    method ContainerStart(name: string) returns (ok: bool, ghost f: Fault)
      modifies this
      ensures ok <==> f == Fine && name in old(world)
      ensures world == if f.Lost? then old(world) else Set(old(world), name, true)
      ensures log == old(log) + [Entry(Start(name), f, world)]
      ensures old(script) == [] ==> f == Fine && script == []
    {
      var fault := Next();
      f := fault;
      ok := fault == Fine && name in world;
      if !fault.Lost? { world := Set(world, name, true); }
      Note(Start(name), fault);
    }

    /** A container that is gone or already stopped is not an error. */
    method ContainerStop(name: string) returns (ok: bool, ghost f: Fault)
      modifies this
      ensures ok <==> f == Fine
      ensures world == if f.Lost? then old(world) else Set(old(world), name, false)
      ensures log == old(log) + [Entry(Stop(name), f, world)]
      ensures old(script) == [] ==> f == Fine && script == []
    {
      var fault := Next();
      f, ok := fault, fault == Fine;
      if !fault.Lost? { world := Set(world, name, false); }
      Note(Stop(name), fault);
    }

    /** Forced; a container that is gone is not an error. */
    method ContainerRemove(name: string) returns (ok: bool, ghost f: Fault)
      modifies this
      ensures ok <==> f == Fine
      ensures world == if f.Lost? then old(world) else old(world) - {name}
      ensures log == old(log) + [Entry(Remove(name), f, world)]
      ensures old(script) == [] ==> f == Fine && script == []
    {
      var fault := Next();
      f, ok := fault, fault == Fine;
      if !fault.Lost? { world := world - {name}; }
      Note(Remove(name), fault);
    }

    method ContainerInspect(name: string) returns (ok: bool, c: Option<Container>)
      modifies this`script
      ensures ok ==> c == if name in world then Some(world[name]) else None
      ensures ok <==> old(script) == [] || old(script)[0] == Fine
      ensures script == if old(script) == [] then [] else old(script)[1..]
    {
      var fault := Next();
      if fault != Fine { return false, None; }
      return true, if name in world then Some(world[name]) else None;
    }

    method ContainerList() returns (ok: bool, list: seq<Listing>)
      modifies this`script
      ensures ok ==> Lists(list, world)
      ensures ok <==> old(script) == [] || old(script)[0] == Fine
      ensures script == if old(script) == [] then [] else old(script)[1..]
    {
      var fault := Next();
      if fault != Fine { return false, []; }
      list := Enumerate(world);
      return true, list;
    }

    /** A container exits or comes back on its own. */
    method Drifts(name: string, running: bool)
      modifies this`world, this`log
      ensures world == Set(old(world), name, running)
      ensures log == old(log) + [Entry(Drift(name), Fine, world)]
    {
      world := Set(world, name, running);
      Note(Drift(name), Fine);
    }
  }

  method Enumerate(w: World) returns (list: seq<Listing>)
    ensures Lists(list, w)
  {
    list := [];
    var left := w.Keys;
    while left != {}
      invariant left <= w.Keys
      invariant forall i :: 0 <= i < |list| ==>
                list[i].name in w && list[i].name !in left && w[list[i].name] == list[i].c && list[i].c.managed
      invariant forall n :: n in w && n !in left && w[n].managed ==> exists i :: 0 <= i < |list| && list[i].name == n
      invariant forall i, j :: 0 <= i < j < |list| ==> list[i].name != list[j].name
      decreases left
    {
      var n :| n in left;
      left := left - {n};
      if w[n].managed {
        ghost var before := list;
        list := list + [Listing(n, w[n])];
        assert list[|before|].name == n;
        forall m | m in w && m !in left && w[m].managed && m != n
          ensures exists i :: 0 <= i < |list| && list[i].name == m
        {
          var i :| 0 <= i < |before| && before[i].name == m;
          assert list[i].name == m;
        }
      }
    }
  }
}
