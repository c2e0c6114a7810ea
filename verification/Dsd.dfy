/** agent/internal/dsd/dsd.go: documents of typed ops and their dependency order. */
module Dsd {

  datatype Op = Op(id: string, kind: string, dependsOn: seq<string>, spec: string)

  /** An int64. */
  type Version = v: int | -0x8000_0000_0000_0000 <= v < 0x8000_0000_0000_0000

  datatype Document = Document(version: Version, serverId: string, ops: seq<Op>)

  type Graph = map<string, Op>

  /** The ops by id; where an id is repeated the last op has it. */
  function ById(ops: seq<Op>): (g: Graph)
    ensures forall id :: id in g ==> g[id].id == id && g[id] in ops
    ensures forall op :: op in ops ==> op.id in g
  {
    if |ops| == 0 then map[] else
      var last := ops[|ops| - 1];
      ById(ops[..|ops| - 1])[last.id := last]
  }

  function Ids(ops: seq<Op>): set<string> {
    set op | op in ops :: op.id
  }

  /** At position `i` the path goes from a dependent to one of its dependencies. */
  ghost predicate Edge(g: Graph, p: seq<string>, i: nat)
    requires i + 1 < |p|
  {
    p[i] in g && p[i + 1] in g[p[i]].dependsOn
  }

  ghost predicate IsPath(g: Graph, p: seq<string>) {
    |p| > 0 && forall i: nat :: i + 1 < |p| ==> Edge(g, p, i)
  }

  /** A path that leaves the document or closes a cycle. */
  ghost predicate DeadEnd(g: Graph, p: seq<string>) {
    IsPath(g, p) && (p[|p| - 1] !in g || p[|p| - 1] in p[..|p| - 1])
  }

  /** A missing id or a dependency cycle is reachable from `id`. */
  ghost predicate Doomed(g: Graph, id: string) {
    exists p :: DeadEnd(g, p) && p[0] == id
  }

  /** In terms of the edges: a path leads to an id that no op has, or back to where it has been. */
  lemma {:induction false} DoomedPlainly(g: Graph, id: string)
    ensures Doomed(g, id) <==>
            exists p: seq<string> :: |p| > 0 && p[0] == id
              && (forall i :: 0 <= i < |p| - 1 ==> p[i] in g && p[i + 1] in g[p[i]].dependsOn)
              && (p[|p| - 1] !in g || exists k :: 0 <= k < |p| - 1 && p[k] == p[|p| - 1])
  {
    forall p: seq<string> | |p| > 0
      ensures DeadEnd(g, p) <==>
              && (forall i :: 0 <= i < |p| - 1 ==> p[i] in g && p[i + 1] in g[p[i]].dependsOn)
              && (p[|p| - 1] !in g || exists k :: 0 <= k < |p| - 1 && p[k] == p[|p| - 1])
    {
      DeadEndPlainly(g, p);
    }
  }

  lemma {:induction false} DeadEndPlainly(g: Graph, p: seq<string>)
    requires |p| > 0
    ensures DeadEnd(g, p) <==>
            && (forall i :: 0 <= i < |p| - 1 ==> p[i] in g && p[i + 1] in g[p[i]].dependsOn)
            && (p[|p| - 1] !in g || exists k :: 0 <= k < |p| - 1 && p[k] == p[|p| - 1])
  {
    var last := p[|p| - 1];
    if last in p[..|p| - 1] { var k :| 0 <= k < |p| - 1 && p[..|p| - 1][k] == last; assert p[k] == last; }
    if k :| 0 <= k < |p| - 1 && p[k] == last { assert p[..|p| - 1][k] == last; }
    if IsPath(g, p) {
      forall i | 0 <= i < |p| - 1 ensures p[i] in g && p[i + 1] in g[p[i]].dependsOn { assert Edge(g, p, i); }
    }
  }

  /** Of ops with one id the last counts. */
  lemma {:induction false} LastOpWins(ops: seq<Op>, k: nat)
    requires k < |ops| && forall j :: k < j < |ops| ==> ops[j].id != ops[k].id
    ensures ops[k].id in ById(ops) && ById(ops)[ops[k].id] == ops[k]
  {
    if k < |ops| - 1 { LastOpWins(ops[..|ops| - 1], k); }
  }

  /** Every op stands at most once, under its own id, and after all its dependencies. */
  ghost predicate Sequenced(g: Graph, order: seq<Op>) {
    && (forall i :: 0 <= i < |order| ==> order[i].id in g && g[order[i].id] == order[i])
    && (forall i, j :: 0 <= i < j < |order| ==> order[i].id != order[j].id)
    && (forall i, dep :: 0 <= i < |order| && dep in order[i].dependsOn ==> dep in Ids(order[..i]))
  }

  ghost function DoomedIds(g: Graph, ops: seq<Op>): seq<string> {
    if |ops| == 0 then [] else
      var front := DoomedIds(g, ops[..|ops| - 1]);
      var id := ops[|ops| - 1].id;
      if Doomed(g, id) then front + [id] else front
  }

  /** What `TopoOrder` promises: the ops that reach neither a cycle nor a missing id,
      dependencies first; and the ids of all the others, in document order. */
  ghost predicate TopoSpec(ops: seq<Op>, ordered: seq<Op>, unresolved: seq<string>) {
    var g := ById(ops);
    && Sequenced(g, ordered)
    && (forall id :: id in Ids(ordered) <==> id in g && !Doomed(g, id))
    && unresolved == DoomedIds(g, ops)
  }

  lemma {:induction false} DoomedIdsAre(g: Graph, ops: seq<Op>, id: string)
    ensures id in DoomedIds(g, ops) <==> id in Ids(ops) && Doomed(g, id)
  {
    if |ops| != 0 {
      var front := ops[..|ops| - 1];
      DoomedIdsAre(g, front, id);
      assert ops == front + [ops[|ops| - 1]];
    }
  }

  /** The unresolved ids stand in document order. */
  lemma {:induction false} UnresolvedInOrder(g: Graph, ops: seq<Op>, a: nat, b: nat) returns (i: nat, j: nat)
    requires a < b < |DoomedIds(g, ops)|
    ensures i < j < |ops| && DoomedIds(g, ops)[a] == ops[i].id && DoomedIds(g, ops)[b] == ops[j].id
  {
    hide Doomed;
    var front := ops[..|ops| - 1];
    if b < |DoomedIds(g, front)| {
      i, j := UnresolvedInOrder(g, front, a, b);
    } else {
      i := UnresolvedPlace(g, front, a);
      j := |front|;
    }
  }

  lemma {:induction false} UnresolvedPlace(g: Graph, ops: seq<Op>, a: nat) returns (i: nat)
    requires a < |DoomedIds(g, ops)|
    ensures i < |ops| && DoomedIds(g, ops)[a] == ops[i].id
  {
    hide Doomed;
    var front := ops[..|ops| - 1];
    if a < |DoomedIds(g, front)| { i := UnresolvedPlace(g, front, a); } else { i := |front|; }
  }

  /** What an order promises, position by position. */
  lemma {:induction false} OrderPlainly(ops: seq<Op>, ordered: seq<Op>, unresolved: seq<string>)
    requires TopoSpec(ops, ordered, unresolved)
    ensures forall i :: 0 <= i < |ordered| ==> ordered[i] in ops && !Doomed(ById(ops), ordered[i].id)
    ensures forall i, j :: 0 <= i < j < |ordered| ==> ordered[i].id != ordered[j].id
    ensures forall i, dep :: 0 <= i < |ordered| && dep in ordered[i].dependsOn ==>
              exists j :: 0 <= j < i && ordered[j].id == dep
    ensures forall op :: op in ops ==>
              if Doomed(ById(ops), op.id) then op.id in unresolved
              else exists i :: 0 <= i < |ordered| && ordered[i].id == op.id
    ensures forall id :: id in unresolved ==> id in ById(ops) && Doomed(ById(ops), id)
  {
    hide Doomed;
    var g := ById(ops);
    forall i | 0 <= i < |ordered| ensures ordered[i] in ops && !Doomed(g, ordered[i].id) {
      assert ordered[i].id in Ids(ordered);
    }
    forall i, dep | 0 <= i < |ordered| && dep in ordered[i].dependsOn
      ensures exists j :: 0 <= j < i && ordered[j].id == dep
    {
      assert dep in Ids(ordered[..i]);
      var o :| o in ordered[..i] && o.id == dep;
      var j :| 0 <= j < i && ordered[..i][j] == o;
      assert ordered[j].id == dep;
    }
    forall op | op in ops
      ensures if Doomed(g, op.id) then op.id in unresolved else exists i :: 0 <= i < |ordered| && ordered[i].id == op.id
    {
      DoomedIdsAre(g, ops, op.id);
      if !Doomed(g, op.id) {
        assert op.id in Ids(ordered);
        var o :| o in ordered && o.id == op.id;
      }
    }
    forall id | id in unresolved ensures id in g && Doomed(g, id) {
      DoomedIdsAre(g, ops, id);
      var o :| o in ops && o.id == id;
    }
  }

  lemma {:induction false} DoomSpreads(g: Graph, id: string, dep: string)
    requires id in g && dep in g[id].dependsOn && Doomed(g, dep)
    ensures Doomed(g, id)
  {
    var p :| DeadEnd(g, p) && p[0] == dep;
    var q := [id] + p;
    assert q[|q| - 1] == p[|p| - 1];
    forall i: nat | i + 1 < |q| ensures Edge(g, q, i) {
      if i > 0 { assert Edge(g, p, i - 1); }
    }
    if p[|p| - 1] in p[..|p| - 1] {
      var i :| 0 <= i < |p| - 1 && p[i] == p[|p| - 1];
      assert q[..|q| - 1][i + 1] == q[|q| - 1];
    }
    assert DeadEnd(g, q);
  }

  lemma {:induction false} Suffix(g: Graph, p: seq<string>, k: nat)
    requires IsPath(g, p) && k < |p|
    ensures IsPath(g, p[k..])
  {
    forall i: nat | i + 1 < |p[k..]| ensures Edge(g, p[k..], i) { assert Edge(g, p, k + i); }
  }

  lemma {:induction false} BackEdgeIsDoom(g: Graph, grey: seq<string>, id: string)
    requires IsPath(g, grey + [id]) && id in grey
    ensures Doomed(g, id)
  {
    var i :| 0 <= i < |grey| && grey[i] == id;
    var p := (grey + [id])[i..];
    Suffix(g, grey + [id], i);
    assert p[0] == id == p[|p| - 1] && p[..|p| - 1][0] == id;
    assert DeadEnd(g, p);
  }

  /** Along a path from an ordered op the position strictly falls, so the path
      neither leaves the document nor comes back. */
  lemma {:induction false} PathFalls(g: Graph, order: seq<Op>, p: seq<string>, k: nat)
    requires Sequenced(g, order) && IsPath(g, p) && k < |order| && order[k].id == p[0]
    ensures forall i :: 0 < i < |p| ==> p[i] in Ids(order[..k])
  {
    if |p| > 1 {
      assert Edge(g, p, 0);
      Suffix(g, p, 1);
      assert p[1] in Ids(order[..k]);
      var j :| 0 <= j < k && order[..k][j].id == p[1];
      PathFalls(g, order, p[1..], j);
      forall i | 0 < i < |p| ensures p[i] in Ids(order[..k]) {
        if i > 1 {
          assert p[1..][i - 1] in Ids(order[..j]);
          var m :| 0 <= m < j && order[..j][m].id == p[i];
          assert order[..k][m].id == p[i];
        }
      }
    }
  }

  lemma {:induction false} OrderedIsNotDoomed(g: Graph, order: seq<Op>, k: nat)
    requires Sequenced(g, order) && k < |order|
    ensures !Doomed(g, order[k].id)
  {
    if Doomed(g, order[k].id) {
      var p :| DeadEnd(g, p) && p[0] == order[k].id;
      PathFalls(g, order, p, k);
      var last := p[|p| - 1];
      if last in p[..|p| - 1] {
        var i :| 0 <= i < |p| - 1 && p[i] == last;
        var j: nat :| j <= k && order[j].id == last;
        Suffix(g, p, i);
        PathFalls(g, order, p[i..], j);
        assert false;
      }
    }
  }

  lemma {:induction false} SequencedFront(g: Graph, ops: seq<Op>)
    requires Sequenced(g, ops) && |ops| > 0
    ensures var front, op := ops[..|ops| - 1], ops[|ops| - 1];
            && Sequenced(g, front) && op.id in g && g[op.id] == op && op.id !in Ids(front)
            && Ids(ops) == Ids(front) + {op.id}
            && forall dep :: dep in op.dependsOn ==> dep in Ids(front)
  {
    var front, op := ops[..|ops| - 1], ops[|ops| - 1];
    forall i, dep | 0 <= i < |front| && dep in front[i].dependsOn ensures dep in Ids(front[..i]) {
      assert front[..i] == ops[..i];
    }
    assert ops == front + [op];
  }

  /** What the marks of the search mean while the calls in `grey` are in progress:
      1 is in progress, 2 is finished, no mark is unvisited. */
  ghost predicate Marks(g: Graph, state: map<string, int>, bad: set<string>, order: seq<Op>, grey: seq<string>) {
    && (forall id :: id in g ==> g[id].id == id)
    && state.Keys <= g.Keys
    && (forall id :: id in state ==> state[id] == 1 || state[id] == 2)
    && (forall id :: id in state && state[id] == 1 <==> id in grey)
    && (forall id :: id in bad ==> id in state && state[id] == 2 && Doomed(g, id))
    && Sequenced(g, order)
    && (forall id :: id in Ids(order) <==> id in state && state[id] == 2 && id !in bad)
  }

  lemma {:induction false} ReadMark(g: Graph, state: map<string, int>, bad: set<string>, order: seq<Op>,
                                    grey: seq<string>, id: string)
    requires Marks(g, state, bad, order, grey)
    ensures id in g ==> g[id].id == id
    ensures id in state ==> state[id] == 1 || state[id] == 2
    ensures id in state && state[id] == 1 ==> id in grey
    ensures id in state && state[id] == 2 ==> if id in bad then Doomed(g, id) else id in Ids(order)
  {
  }

  lemma {:induction false} MissingIsDoom(g: Graph, id: string)
    requires id !in g
    ensures Doomed(g, id)
  {
    assert DeadEnd(g, [id]);
  }

  lemma {:induction false} Enter(g: Graph, state: map<string, int>, bad: set<string>, order: seq<Op>,
                                 grey: seq<string>, id: string)
    requires Marks(g, state, bad, order, grey) && id in g && id !in state
    ensures Marks(g, state[id := 1], bad, order, grey + [id])
    ensures id !in grey && id !in Ids(order)
  {
    hide Sequenced, Doomed, Ids;
  }

  lemma {:induction false} LeaveBad(g: Graph, state: map<string, int>, bad: set<string>, order: seq<Op>,
                                    grey: seq<string>, id: string)
    requires Marks(g, state, bad, order, grey + [id]) && id !in grey && Doomed(g, id)
    ensures id in state && Marks(g, state[id := 2], bad + {id}, order, grey)
  {
    assert id in grey + [id];
  }

  lemma {:induction false} Append(g: Graph, order: seq<Op>, op: Op)
    requires Sequenced(g, order) && op.id in g && g[op.id] == op && op.id !in Ids(order)
    requires forall dep :: dep in op.dependsOn ==> dep in Ids(order)
    ensures Sequenced(g, order + [op]) && Ids(order + [op]) == Ids(order) + {op.id}
  {
    var order' := order + [op];
    assert order'[..|order|] == order;
    forall i, dep | 0 <= i < |order'| && dep in order'[i].dependsOn ensures dep in Ids(order'[..i]) {
      if i < |order| { assert order'[..i] == order[..i]; }
    }
    forall i, j | 0 <= i < j < |order'| ensures order'[i].id != order'[j].id {
      assert order[i].id in Ids(order);
    }
  }

  lemma {:induction false} LeaveGood(g: Graph, state: map<string, int>, bad: set<string>, order: seq<Op>,
                                     grey: seq<string>, op: Op)
    requires Marks(g, state, bad, order, grey + [op.id]) && op.id !in grey && op.id in g && g[op.id] == op
    requires forall dep :: dep in op.dependsOn ==> dep in Ids(order)
    ensures Marks(g, state[op.id := 2], bad, order + [op], grey)
    ensures Ids(order + [op]) == Ids(order) + {op.id}
  {
    assert op.id in grey + [op.id];
    Append(g, order, op);
  }

  lemma {:induction false} Lone(g: Graph, id: string)
    ensures IsPath(g, [] + [id])
  {
  }

  lemma {:induction false} Extend(g: Graph, chain: seq<string>, id: string, dep: string)
    requires IsPath(g, chain) && chain[|chain| - 1] == id && id in g && dep in g[id].dependsOn
    ensures IsPath(g, chain + [dep])
  {
    var p := chain + [dep];
    forall k: nat | k + 1 < |p| ensures Edge(g, p, k) {
      if k + 1 < |chain| { assert Edge(g, chain, k); }
    }
  }

  /** The closure `visit` of `TopoOrder` with the variables it captures. */
  class Visitor {
    var byID: Graph
    var state: map<string, int>
    var bad: set<string>
    var order: seq<Op>

    ghost predicate Inv(grey: seq<string>)
      reads this
    {
      Marks(byID, state, bad, order, grey)
    }

    constructor (byID: Graph)
      requires forall id :: id in byID ==> byID[id].id == id
      ensures Inv([]) && this.byID == byID && state == map[]
    {
      this.byID, state, bad, order := byID, map[], {}, [];
    }

    method Visit(id: string, ghost grey: seq<string>, ghost room: set<string>) returns (ok: bool)
      requires Inv(grey) && IsPath(byID, grey + [id]) && byID.Keys - state.Keys <= room
      modifies this
      ensures Inv(grey) && byID == old(byID)
      ensures old(state.Keys) <= state.Keys && old(Ids(order)) <= Ids(order)
      ensures ok ==> id in Ids(order)
      ensures !ok ==> Doomed(byID, id)
      ensures id in byID ==> id in state
      decreases room, 0
    {
      hide Marks, Doomed, IsPath, Ids;
      if id !in byID {
        MissingIsDoom(byID, id);
        return false;
      }
      var op := byID[id];
      ReadMark(byID, state, bad, order, grey, id);
      if id in state && state[id] == 2 {
        return id !in bad;
      }
      if id in state && state[id] == 1 {
        BackEdgeIsDoom(byID, grey, id);
        return false;
      }
      Enter(byID, state, bad, order, grey, id);
      state := state[id := 1];
      var good := VisitDependencies(op, grey + [id], room - {id});
      if !good {
        LeaveBad(byID, state, bad, order, grey, id);
        state := state[id := 2];
        bad := bad + {id};
        return false;
      }
      LeaveGood(byID, state, bad, order, grey, op);
      state := state[id := 2];
      order := order + [op];
      return true;
    }

    /** The loop of `visit` over the dependencies of the op at the end of `chain`. */
    method VisitDependencies(op: Op, ghost chain: seq<string>, ghost room: set<string>) returns (ok: bool)
      requires op.id in byID && byID[op.id] == op
      requires |chain| > 0 && chain[|chain| - 1] == op.id
      requires Inv(chain) && IsPath(byID, chain) && byID.Keys - state.Keys <= room
      modifies this
      ensures Inv(chain) && byID == old(byID)
      ensures old(state.Keys) <= state.Keys && old(Ids(order)) <= Ids(order)
      ensures ok ==> forall k :: 0 <= k < |op.dependsOn| ==> op.dependsOn[k] in Ids(order)
      ensures !ok ==> Doomed(byID, op.id)
      decreases room, 1
    {
      hide *;
      for i := 0 to |op.dependsOn|
        invariant Inv(chain) && byID == old(byID)
        invariant old(state.Keys) <= state.Keys && old(Ids(order)) <= Ids(order)
        invariant forall k :: 0 <= k < i ==> op.dependsOn[k] in Ids(order)
      {
        Extend(byID, chain, op.id, op.dependsOn[i]);
        var good := Visit(op.dependsOn[i], chain, room);
        if !good {
          DoomSpreads(byID, op.id, op.dependsOn[i]);
          return false;
        }
      }
      return true;
    }

    /** Once no call is in progress the marks are exact. */
    lemma {:induction false} Settled(id: string)
      requires Inv([]) && id in state
      ensures id in bad <==> Doomed(byID, id)
      ensures id in Ids(order) <==> !Doomed(byID, id)
    {
      if id !in bad {
        assert id in Ids(order);
        var k :| 0 <= k < |order| && order[k].id == id;
        OrderedIsNotDoomed(byID, order, k);
      }
    }

    lemma {:induction false} AllSettled(ops: seq<Op>, unresolved: seq<string>)
      requires Inv([]) && byID == ById(ops) && forall op :: op in ops ==> op.id in state
      requires unresolved == DoomedIds(byID, ops)
      ensures TopoSpec(ops, order, unresolved)
    {
      hide Sequenced, Doomed, Ids;
      forall id ensures id in Ids(order) <==> id in byID && !Doomed(byID, id) {
        if id in byID { Settled(id); }
      }
    }

    method Unresolved(ops: seq<Op>) returns (unresolved: seq<string>)
      requires Inv([]) && forall op :: op in ops ==> op.id in state
      ensures unresolved == DoomedIds(byID, ops)
    {
      unresolved := [];
      for i := 0 to |ops|
        invariant unresolved == DoomedIds(byID, ops[..i])
      {
        assert ops[..i + 1][..i] == ops[..i];
        var id := ops[i].id;
        Settled(id);
        if id in bad {
          unresolved := unresolved + [id];
        }
      }
      assert ops[..|ops|] == ops;
    }
  }

  method Index(ops: seq<Op>) returns (byID: Graph)
    ensures byID == ById(ops)
  {
    byID := map[];
    for i := 0 to |ops|
      invariant byID == ById(ops[..i])
    {
      assert ops[..i + 1][..i] == ops[..i];
      byID := byID[ops[i].id := ops[i]];
    }
    assert ops[..|ops|] == ops;
  }

  method TopoOrder(ops: seq<Op>) returns (ordered: seq<Op>, unresolved: seq<string>)
    ensures TopoSpec(ops, ordered, unresolved)
  {
    hide *;
    var byID := Index(ops);
    var v := new Visitor(byID);
    for i := 0 to |ops|
      invariant v.Inv([]) && v.byID == byID
      invariant forall k :: 0 <= k < i ==> ops[k].id in v.state
    {
      if ops[i].id !in v.state {
        Lone(byID, ops[i].id);
        var _ := v.Visit(ops[i].id, [], byID.Keys);
      }
    }
    unresolved := v.Unresolved(ops);
    ordered := v.order;
    v.AllSettled(ops, unresolved);
  }
}
