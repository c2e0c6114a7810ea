/** cp/internal/api/idempotency.go and cp/internal/store/idempotency.go: any number of
    requests that carry one (organisation, Idempotency-Key), step by step, and the sweep
    of cp/internal/store/retention.go that deletes old rows. */
module Idempotency {
  import opened Wrappers

  /** The key's row. A status makes it done; None is SQL's NULL. */
  datatype Row = Row(hash: string, status: Option<int>, response: Option<string>)

  /** A response body as the database's JSON column takes it: no body, the normal form of a
      JSON one, or a body that it refuses. */
  datatype Answer = Empty | Json(normal: string) | NotJson

  datatype Cause = ServerError | Panicked | NotStored

  /** What a request got: its own answer, kept or not, a stored one, or one of three refusals. */
  datatype Reply = Own(status: int) | Unkept(why: Cause) | Replayed(status: int, body: string)
                 | Mismatch | InFlight | Failed

  /** Where a request is, between its database calls. */
  datatype Pc = Arrived(hash: string)
              | LookingUp(hash: string)
              | Running(hash: string)
              | Ran(hash: string, status: int, body: Answer)
              | Releasing(hash: string, why: Cause)
              | Over(reply: Reply)
              | Dead

  /** What happens to a request next: its database call returns, its handler does or
      panics, or its process dies. */
  datatype Move = Database(fault: Fault) | Returns(status: int, body: Answer) | Panics | Dies

  function Body(r: Row): string {
    if r.response.Some? then r.response.value else ""
  }

  /** An empty response body is written as NULL. */
  function Stored(body: Answer): Option<string>
    requires !body.NotJson?
  {
    if body.Empty? then None else Some(body.normal)
  }

  /** The row after an update that finalizes it; a body the column refuses fails the update. */
  function Finalized(row: Option<Row>, status: int, body: Answer, fault: Fault): Option<Row> {
    if row.None? || fault.Lost? || body.NotJson? then row else Some(Row(row.value.hash, Some(status), Stored(body)))
  }

  predicate Done(row: Option<Row>) {
    row.Some? && row.value.status.Some?
  }

  predicate Pending(row: Option<Row>) {
    row.Some? && row.value.status.None?
  }

  /** The request has the claim: it executes, or has executed and not given up its row. */
  predicate Owns(pc: Pc) {
    pc.Running? || pc.Ran? || pc.Releasing?
  }

  /** One move of one request, and what it does to the row. */
  predicate Moves(row: Option<Row>, pc: Pc, move: Move, row': Option<Row>, pc': Pc) {
    match move
    case Dies => row' == row && pc' == if pc.Over? then pc else Dead
    case Panics => row' == row && pc' == if pc.Running? then Releasing(pc.hash, Panicked) else pc
    case Returns(status, body) =>
      && row' == row
      && pc' == if !pc.Running? then pc else if status >= 500 then Releasing(pc.hash, ServerError)
          else Ran(pc.hash, status, body)
    case Database(fault) =>
      match pc
      case Arrived(hash) =>
        // The claim: only where there is no row.
        && row' == (if row.None? && !fault.Lost? then Some(Row(hash, None, None)) else row)
        && pc' == (if !fault.Fine? then Over(Failed) else if row.None? then Running(hash) else LookingUp(hash))
      case LookingUp(hash) =>
        && row' == row
        && pc'.Over?
        && (fault.Fine? && row.Some? <==> !pc'.reply.Failed?)
        && (pc'.reply.Mismatch? ==> row.Some? && row.value.hash != hash)
        && (pc'.reply.Replayed? ==>
            Done(row) && row.value.hash == hash && pc'.reply == Replayed(row.value.status.value, Body(row.value)))
        && (pc'.reply.InFlight? ==> Pending(row) && row.value.hash == hash)
        && !pc'.reply.Own? && !pc'.reply.Unkept?
      case Ran(hash, status, body) =>
        && row' == Finalized(row, status, body, fault)
        && pc' == if fault.Fine? && !body.NotJson? then Over(Own(status)) else Releasing(hash, NotStored)
      case Releasing(hash, why) =>
        // Only a row without a response is dropped.
        && row' == (if !fault.Lost? && row.Some? && row.value.response.None? then None else row)
        && pc' == Over(Unkept(why))
      case _ => row' == row && pc' == pc
  }

  // ---- the code ----

  /** The row's table. */
  class Table {
    var row: Option<Row>

    constructor ()
      ensures row == None
    {
      row := None;
    }

    /** The insert of IdempotencyClaim: ON CONFLICT DO NOTHING. */
    method Insert(hash: string, fault: Fault) returns (ok: bool, inserted: bool)
      modifies this
      ensures row == if old(row).None? && !fault.Lost? then Some(Row(hash, None, None)) else old(row)
      ensures ok <==> fault.Fine?
      ensures ok ==> (inserted <==> old(row).None?)
    {
      if fault.Lost? { return false, false; }
      inserted := row.None?;
      if inserted { row := Some(Row(hash, None, None)); }
      ok := fault.Fine?;
    }

    method Finalize(status: int, body: Answer, fault: Fault) returns (ok: bool)
      modifies this
      ensures row == Finalized(old(row), status, body, fault)
      ensures ok <==> fault.Fine? && !body.NotJson?
    {
      if fault.Lost? || body.NotJson? { return false; }
      if row.Some? {
        row := Some(row.value.(status := Some(status), response := if body.Empty? then None else Some(body.normal)));
      }
      ok := fault.Fine?;
    }

    method Release(fault: Fault)
      modifies this
      ensures row == if !fault.Lost? && old(row).Some? && old(row).value.response.None? then None else old(row)
    {
      if fault.Lost? { return; }
      if row.Some? && row.value.response.None? { row := None; }
    }

    /** PruneRetained, once the row is older than the window: whatever its state, it goes. */
    method Sweep()
      modifies this
      ensures row == None
    {
      row := None;
    }

    /** The middleware, one step of one request. */
    method Advance(pc: Pc, move: Move) returns (pc': Pc)
      modifies this
      ensures Moves(old(row), pc, move, row, pc')
    {
      pc' := pc;
      match move {
        case Dies =>
          if !pc.Over? { pc' := Dead; }
        case Panics =>
          if pc.Running? { pc' := Releasing(pc.hash, Panicked); }
        case Returns(status, body) =>
          if pc.Running? {
            pc' := if status < 500 then Ran(pc.hash, status, body) else Releasing(pc.hash, ServerError);
          }
        case Database(fault) =>
          match pc {
            case Arrived(hash) =>
              var ok, inserted := Insert(hash, fault);
              if !ok { return Over(Failed); }
              pc' := if inserted then Running(hash) else LookingUp(hash);
            case LookingUp(hash) =>
              if !fault.Fine? || row.None? { return Over(Failed); }
              var existing := row.value;
              if existing.hash != hash { return Over(Mismatch); }
              if existing.status.Some? { return Over(Replayed(existing.status.value, Body(existing))); }
              return Over(InFlight);
            case Ran(hash, status, body) =>
              var ok := Finalize(status, body, fault);
              pc' := if ok then Over(Own(status)) else Releasing(hash, NotStored);
            case Releasing(hash, why) =>
              Release(fault);
              pc' := Over(Unkept(why));
            case _ =>
          }
      }
    }
  }

  // ---- all requests at once ----

  /** Began when a request wins the claim; Dropped when it gives its row up; Swept when the
      sweep takes the row it had claimed. */
  datatype Event = Began(id: nat, hash: string) | Dropped(id: nat, why: Cause) | Swept(id: nat)

  datatype State = State(row: Option<Row>, requests: map<nat, Pc>, log: seq<Event>)

  datatype Act = Arrive(id: nat, hash: string) | Go(id: nat, move: Move) | Sweep

  function Happened(id: nat, row: Option<Row>, pc: Pc, row': Option<Row>, pc': Pc): seq<Event> {
    if pc.Arrived? && pc'.Running? then [Began(id, pc.hash)]
    else if row.Some? && row'.None? && pc.Releasing? then [Dropped(id, pc.why)]
    else []
  }

  /** The sweep ends the turn of the request that last began, if that is still open. */
  function Ended(log: seq<Event>): seq<Event> {
    if |log| > 0 && log[|log| - 1].Began? then log + [Swept(log[|log| - 1].id)] else log
  }

  ghost predicate Step(act: Act, s: State, t: State) {
    match act
    case Sweep =>
      t == State(None, s.requests, Ended(s.log))
    case Arrive(id, hash) =>
      t == if id in s.requests then s else s.(requests := s.requests[id := Arrived(hash)])
    case Go(id, move) =>
      if id !in s.requests then t == s
      else
        && t.requests.Keys == s.requests.Keys
        && (forall i :: i in s.requests && i != id ==> t.requests[i] == s.requests[i])
        && Moves(s.row, s.requests[id], move, t.row, t.requests[id])
        && t.log == s.log + Happened(id, s.row, s.requests[id], t.row, t.requests[id])
  }

  ghost predicate Link(acts: seq<Act>, trace: seq<State>, i: nat) {
    i < |acts| && i + 1 < |trace| && Step(acts[i], trace[i], trace[i + 1])
  }

  ghost predicate IsRun(acts: seq<Act>, trace: seq<State>) {
    && |trace| == |acts| + 1 && trace[0] == State(None, map[], [])
    && forall i: nat :: i < |acts| ==> Link(acts, trace, i)
  }

  /** Any requests, in any order, with any calls failing and any process dying. */
  method Serve(acts: seq<Act>) returns (ghost trace: seq<State>)
    ensures IsRun(acts, trace)
  {
    hide Moves;
    var table := new Table();
    var requests: map<nat, Pc> := map[];
    ghost var log: seq<Event> := [];
    trace := [State(None, map[], [])];
    for i := 0 to |acts|
      invariant |trace| == i + 1 && trace[0] == State(None, map[], [])
      invariant trace[i] == State(table.row, requests, log)
      invariant forall k: nat :: k < i ==> Link(acts, trace, k)
    {
      ghost var before := trace;
      match acts[i] {
        case Sweep =>
          table.Sweep();
          log := Ended(log);
        case Arrive(id, hash) =>
          if id !in requests { requests := requests[id := Arrived(hash)]; }
        case Go(id, move) =>
          if id in requests {
            ghost var row := table.row;
            var pc := requests[id];
            var pc' := table.Advance(pc, move);
            log := log + Happened(id, row, pc, table.row, pc');
            requests := requests[id := pc'];
          }
      }
      trace := trace + [State(table.row, requests, log)];
      assert Step(acts[i], trace[i], trace[i + 1]);
      forall k: nat | k <= i ensures Link(acts, trace, k) {
        if k < i { assert Link(acts, before, k); }
      }
    }
  }

  // ---- what every run keeps ----

  /** Executions take turns: each begins only after the one before has dropped its row, or
      had it swept. */
  predicate Turns(log: seq<Event>) {
    && (forall k :: 0 <= k < |log| ==> (log[k].Began? <==> k % 2 == 0))
    && (forall k :: 0 < k < |log| && k % 2 == 1 ==> log[k].id == log[k - 1].id)
  }

  ghost predicate Inv(s: State) {
    && (forall i, j :: i in s.requests && j in s.requests && Owns(s.requests[i]) && Owns(s.requests[j]) ==> i == j)
    && (forall i :: i in s.requests && Owns(s.requests[i]) ==> Owned(s, i))
    && (Pending(s.row) ==> s.row.value.response.None?)
    && Turns(s.log) && (|s.log| % 2 == 1 ==> s.row.Some?)
  }

  /** What holds while request `i` has the claim. */
  predicate Owned(s: State, i: nat)
    requires i in s.requests && Owns(s.requests[i])
  {
    && s.row.Some? && s.row.value.hash == s.requests[i].hash
    && (!s.requests[i].Releasing? || s.requests[i].why != NotStored ==> Pending(s.row))
    && |s.log| % 2 == 1 && s.log[|s.log| - 1].id == i
  }

  lemma {:induction false} TurnsMore(log: seq<Event>, e: Event)
    requires Turns(log) && (e.Began? <==> |log| % 2 == 0)
    requires !e.Began? ==> e.id == log[|log| - 1].id
    ensures Turns(log + [e])
  {
  }

  /** No request has the claim. */
  ghost predicate Free(s: State) {
    forall i :: i in s.requests ==> !Owns(s.requests[i])
  }

  /** Each act keeps the invariant, but for one: a sweep does exactly when no request has
      the claim. */
  lemma {:induction false} StepKeeps(act: Act, s: State, t: State)
    requires Inv(s) && Step(act, s, t)
    ensures Inv(t) <==> !act.Sweep? || Free(s)
  {
    if act.Sweep? { SweepKeeps(s, t); } else { MoveKeeps(act, s, t); }
  }

  lemma {:induction false} SweepKeeps(s: State, t: State)
    requires Inv(s) && Step(Sweep, s, t)
    ensures Inv(t) <==> Free(s)
  {
    hide Turns;
    if |s.log| > 0 && s.log[|s.log| - 1].Began? {
      LastBegan(s.log);
      TurnsMore(s.log, Swept(s.log[|s.log| - 1].id));
    } else {
      LastBegan(s.log);
    }
  }

  lemma {:induction false} LastBegan(log: seq<Event>)
    requires Turns(log)
    ensures |log| % 2 == 1 <==> |log| > 0 && log[|log| - 1].Began?
  {
  }

  lemma {:induction false} MoveKeeps(act: Act, s: State, t: State)
    requires Inv(s) && Step(act, s, t) && !act.Sweep?
    ensures Inv(t)
  {
    if act.Arrive? {
      hide Turns;
      assert forall i :: i in t.requests && Owns(t.requests[i]) ==> i in s.requests && Owned(s, i);
    } else if act.id in s.requests {
      if Owns(s.requests[act.id]) { OwnerKeeps(act.id, act.move, s, t); } else { OtherKeeps(act.id, act.move, s, t); }
    }
  }

  /** A move of the request that has the claim. */
  lemma {:induction false} OwnerKeeps(id: nat, move: Move, s: State, t: State)
    requires Inv(s) && Step(Go(id, move), s, t) && id in s.requests && Owns(s.requests[id])
    ensures Inv(t)
  {
    hide Turns;
    assert Owned(s, id);
    assert forall i :: i in t.requests && i != id ==> !Owns(t.requests[i]);
    var e := Happened(id, s.row, s.requests[id], t.row, t.requests[id]);
    if e != [] { TurnsMore(s.log, e[0]); } else { assert t.log == s.log; }
  }

  /** A move of a request that has not. */
  lemma {:induction false} OtherKeeps(id: nat, move: Move, s: State, t: State)
    requires Inv(s) && Step(Go(id, move), s, t) && id in s.requests && !Owns(s.requests[id])
    ensures Inv(t)
  {
    hide Turns;
    if t.requests[id].Running? {
      assert forall i :: i in s.requests ==> !Owns(s.requests[i]);
      TurnsMore(s.log, Began(id, t.requests[id].hash));
    } else {
      assert t.log == s.log && !Owns(t.requests[id]);
      assert forall i :: i in t.requests && Owns(t.requests[i]) ==> Owned(s, i) && t.row == s.row;
    }
  }

  lemma {:induction false} NothingYet()
    ensures Inv(State(None, map[], []))
  {
  }

  /** Up to act `i` the sweep has only met rows that no request had the claim of. The
      window is days: a request would have to run as long to be met. */
  ghost predicate Timely(acts: seq<Act>, trace: seq<State>, i: nat)
    requires i <= |acts| < |trace|
  {
    forall k :: 0 <= k < i && acts[k].Sweep? ==> Free(trace[k])
  }

  lemma {:induction false} RunKeeps(acts: seq<Act>, trace: seq<State>, i: nat)
    requires IsRun(acts, trace) && i <= |acts| && Timely(acts, trace, i)
    ensures Inv(trace[i])
  {
    hide Inv, Step, Free;
    if i > 0 {
      RunKeeps(acts, trace, i - 1);
      assert Link(acts, trace, i - 1);
      StepKeeps(acts[i - 1], trace[i - 1], trace[i]);
    } else {
      NothingYet();
    }
  }

  /** Executions never overlap, and a request executes only while the row is its own: one
      with another body never does while the key is held or done. */
  lemma {:induction false} NeverOverlap(acts: seq<Act>, trace: seq<State>, n: nat, i: nat, j: nat)
    requires IsRun(acts, trace) && n <= |acts| && Timely(acts, trace, n)
    requires i in trace[n].requests && trace[n].requests[i].Running?
    ensures j in trace[n].requests && trace[n].requests[j].Running? ==> i == j
    ensures Pending(trace[n].row) && trace[n].row.value.hash == trace[n].requests[i].hash
    ensures Turns(trace[n].log)
  {
    RunKeeps(acts, trace, n);
  }

  /** And not otherwise: once the sweep has taken the row of a running request, the next
      one to arrive executes beside it. */
  lemma {:induction false} SweptOwnerOverlaps(s: State, id: nat, other: nat, hash: string, a: State, b: State, t: State)
    requires id in s.requests && s.requests[id].Running? && other !in s.requests
    requires Step(Sweep, s, a) && Step(Arrive(other, hash), a, b) && Step(Go(other, Database(Fine)), b, t)
    ensures t.requests[id].Running? && t.requests[other].Running? && id != other
  {
    assert a.row == None && b.requests[other] == Arrived(hash) && b.requests[id] == s.requests[id];
  }

  // ---- once done ----

  /** The response is kept: it is there to be replayed, or nobody is about to drop it. */
  ghost predicate Kept(s: State) {
    Done(s.row) && (s.row.value.response.Some? || Free(s))
  }

  ghost predicate SweptBetween(acts: seq<Act>, i: nat, j: nat) {
    exists k :: i <= k < j && k < |acts| && acts[k].Sweep?
  }

  /** From state `i` to state `j` the row is as it was and nothing begins or ends. */
  ghost predicate Stands(trace: seq<State>, i: nat, j: nat)
    requires i <= j < |trace|
  {
    forall k :: i <= k <= j ==> trace[k].row == trace[i].row && trace[k].log == trace[i].log
  }

  lemma {:induction false} StepKeepsKept(act: Act, s: State, t: State)
    requires Inv(s) && Step(act, s, t) && Kept(s) && !act.Sweep?
    ensures Kept(t) && t.row == s.row && t.log == s.log
  {
  }

  lemma {:induction false} KeptStands(acts: seq<Act>, trace: seq<State>, i: nat, j: nat)
    requires IsRun(acts, trace) && i <= j <= |acts| && Timely(acts, trace, i) && Kept(trace[i])
    requires forall k :: i <= k < j ==> !acts[k].Sweep?
    ensures Kept(trace[j]) && Stands(trace, i, j)
    decreases j
  {
    if i < j {
      hide Kept, Inv, Step;
      KeptStands(acts, trace, i, j - 1);
      RunKeeps(acts, trace, j - 1);
      assert Link(acts, trace, j - 1);
      StepKeepsKept(acts[j - 1], trace[j - 1], trace[j]);
    }
  }

  /** After a sweep there is no row. */
  lemma {:induction false} SweepBreaks(acts: seq<Act>, trace: seq<State>, i: nat, j: nat)
    requires IsRun(acts, trace) && i <= j <= |acts| && trace[i].row.Some? && SweptBetween(acts, i, j)
    ensures !Stands(trace, i, j)
  {
    var k :| i <= k < j && acts[k].Sweep?;
    assert Link(acts, trace, k);
    assert trace[k + 1].row == None;
  }

  /** Nothing executes after a kept response and its row never changes, exactly until the
      sweep: the promise of the key is the window's. */
  lemma {:induction false} KeptUntilSwept(acts: seq<Act>, trace: seq<State>, i: nat, j: nat)
    requires IsRun(acts, trace) && i <= j <= |acts| && Timely(acts, trace, i) && Kept(trace[i])
    ensures Stands(trace, i, j) <==> !SweptBetween(acts, i, j)
    ensures !SweptBetween(acts, i, j) ==> Kept(trace[j])
  {
    assert |trace| == |acts| + 1;
    hide Kept, Stands, IsRun;
    if SweptBetween(acts, i, j) {
      DoneIsThere(trace[i]);
      SweepBreaks(acts, trace, i, j);
    } else {
      KeptStands(acts, trace, i, j);
    }
  }

  lemma {:induction false} DoneIsThere(s: State)
    ensures Kept(s) || Wedged(s) ==> s.row.Some?
  {
  }

  /** Until then every request that looks the key up gets the stored status and body, or is
      told that its body differs. */
  lemma {:induction false} KeptIsReplayed(acts: seq<Act>, trace: seq<State>, i: nat, j: nat, id: nat, hash: string)
    requires IsRun(acts, trace) && i <= j < |acts| && Timely(acts, trace, i) && Kept(trace[i])
             && !SweptBetween(acts, i, j)
    requires acts[j] == Go(id, Database(Fine)) && id in trace[j].requests && trace[j].requests[id] == LookingUp(hash)
    ensures var r := trace[i].row.value;
            id in trace[j + 1].requests
            && trace[j + 1].requests[id] ==
                 Over(if r.hash != hash then Mismatch
                      else Replayed(r.status.value, if r.response.Some? then r.response.value else ""))
  {
    KeptUntilSwept(acts, trace, i, j);
    assert trace[j].row == trace[i].row;
    assert Link(acts, trace, j);
    LookupSays(trace[j], id, hash, trace[j + 1]);
  }

  /** What a lookup that works answers, by the row it finds. */
  lemma {:induction false} LookupSays(s: State, id: nat, hash: string, t: State)
    requires id in s.requests && s.requests[id] == LookingUp(hash) && Step(Go(id, Database(Fine)), s, t)
    ensures t.row == s.row && t.log == s.log && id in t.requests
    ensures t.requests[id] ==
              Over(if s.row.None? then Failed
                   else if s.row.value.hash != hash then Mismatch
                   else if s.row.value.status.None? then InFlight
                   else Replayed(s.row.value.status.value,
                                 if s.row.value.response.Some? then s.row.value.response.value else ""))
  {
  }

  // ---- what a handler answers, and who gets it ----

  /** A request whose handler has answered with JSON under 500 finalizes its own row, even if
      the database reports an error after the update. */
  lemma {:induction false} FinalizeStores(s: State, id: nat, hash: string, status: int, b: string, fault: Fault,
                                          t: State)
    requires Inv(s) && id in s.requests && s.requests[id] == Ran(hash, status, Json(b)) && !fault.Lost?
    requires Step(Go(id, Database(fault)), s, t)
    ensures t.row == Some(Row(hash, Some(status), Some(b))) && Kept(t)
  {
    assert Owned(s, id);
  }

  /** End to end: the handler of request `id` answers with JSON under 500, and its finalize
      takes effect. Until a sweep every request with the same hash that looks the key up gets
      exactly that status and that body; one with another hash is told that it differs. */
  lemma {:induction false} AnswerIsReplayed(acts: seq<Act>, trace: seq<State>, i: nat, m: nat, j: nat, id: nat,
                                            hash: string, status: int, b: string, fault: Fault,
                                            other: nat, hash': string)
    requires IsRun(acts, trace) && i < m < j < |acts| && Timely(acts, trace, m + 1) && !SweptBetween(acts, m + 1, j)
    requires acts[i] == Go(id, Returns(status, Json(b))) && status < 500
    requires id in trace[i].requests && trace[i].requests[id] == Running(hash)
    requires forall k :: i < k < m && acts[k].Go? ==> acts[k].id != id
    requires acts[m] == Go(id, Database(fault)) && !fault.Lost?
    requires acts[j] == Go(other, Database(Fine)) && other in trace[j].requests
             && trace[j].requests[other] == LookingUp(hash')
    ensures other in trace[j + 1].requests
            && trace[j + 1].requests[other] == Over(if hash' == hash then Replayed(status, b) else Mismatch)
  {
    hide Inv, Kept, Timely, SweptBetween, Link;
    AnswerWaits(acts, trace, i, m, id, hash, status, b);
    TimelyBefore(acts, trace, m);
    RunKeeps(acts, trace, m);
    assert Step(acts[m], trace[m], trace[m + 1]) by { Linked(acts, trace, m); }
    FinalizeStores(trace[m], id, hash, status, b, fault, trace[m + 1]);
    KeptIsReplayed(acts, trace, m + 1, j, other, hash');
  }

  lemma {:induction false} Linked(acts: seq<Act>, trace: seq<State>, i: nat)
    requires IsRun(acts, trace) && i < |acts|
    ensures Step(acts[i], trace[i], trace[i + 1])
  {
    assert Link(acts, trace, i);
  }

  lemma {:induction false} TimelyBefore(acts: seq<Act>, trace: seq<State>, m: nat)
    requires m < |acts| < |trace| && Timely(acts, trace, m + 1)
    ensures Timely(acts, trace, m)
  {
  }

  /** Until its own next move the answer waits to be stored. */
  lemma {:induction false} AnswerWaits(acts: seq<Act>, trace: seq<State>, i: nat, m: nat, id: nat, hash: string,
                                       status: int, b: string)
    requires IsRun(acts, trace) && i < m <= |acts|
    requires acts[i] == Go(id, Returns(status, Json(b))) && status < 500
    requires id in trace[i].requests && trace[i].requests[id] == Running(hash)
    requires forall k :: i < k < m && acts[k].Go? ==> acts[k].id != id
    ensures id in trace[m].requests && trace[m].requests[id] == Ran(hash, status, Json(b))
    decreases m
  {
    assert Link(acts, trace, m - 1);
    if m > i + 1 { AnswerWaits(acts, trace, i, m - 1, id, hash, status, b); }
  }

  /** No answer of 500 or more is on its way to the row, in it, or replayed. */
  ghost predicate Definitive(s: State) {
    && (s.row.Some? && s.row.value.status.Some? ==> s.row.value.status.value < 500)
    && (forall i :: i in s.requests && s.requests[i].Ran? ==> s.requests[i].status < 500)
    && (forall i :: i in s.requests && s.requests[i].Over? && s.requests[i].reply.Replayed? ==>
          s.requests[i].reply.status < 500)
  }

  lemma {:induction false} StepIsDefinitive(act: Act, s: State, t: State)
    requires Definitive(s) && Step(act, s, t)
    ensures Definitive(t)
  {
  }

  lemma {:induction false} OnlyDefinitiveIsKept(acts: seq<Act>, trace: seq<State>, i: nat)
    requires IsRun(acts, trace) && i <= |acts|
    ensures trace[i].row.Some? && trace[i].row.value.status.Some? ==> trace[i].row.value.status.value < 500
    ensures forall id :: id in trace[i].requests ==>
              var pc := trace[i].requests[id]; pc.Over? && pc.reply.Replayed? ==> pc.reply.status < 500
    ensures Definitive(trace[i])
  {
    if i > 0 {
      OnlyDefinitiveIsKept(acts, trace, i - 1);
      assert Link(acts, trace, i - 1);
      StepIsDefinitive(acts[i - 1], trace[i - 1], trace[i]);
    }
  }

  /** A handler that answers with 500 or more gives its row up: the next request executes. */
  lemma {:induction false} ServerErrorDrops(s: State, id: nat, status: int, body: Answer, fault: Fault,
                                            a: State, t: State)
    requires Inv(s) && id in s.requests && s.requests[id].Running? && status >= 500 && !fault.Lost?
    requires Step(Go(id, Returns(status, body)), s, a) && Step(Go(id, Database(fault)), a, t)
    ensures t.row == None && t.log == s.log + [Dropped(id, ServerError)]
  {
    assert Owned(s, id);
    assert a.requests[id] == Releasing(s.requests[id].hash, ServerError) && a.row == s.row;
  }

  // ---- handlers that answer with a body ----

  /** No handler answers under 500 without a body. */
  predicate Bodied(acts: seq<Act>) {
    forall i :: 0 <= i < |acts| && acts[i].Go? && acts[i].move.Returns? && acts[i].move.status < 500 ==>
        !acts[i].move.body.Empty?
  }

  ghost predicate Full(s: State) {
    && (Done(s.row) ==> s.row.value.response.Some?)
    && (forall i :: i in s.requests && s.requests[i].Ran? ==> !s.requests[i].body.Empty?)
  }

  lemma {:induction false} StepFills(act: Act, s: State, t: State)
    requires Full(s) && Step(act, s, t)
    requires act.Go? && act.move.Returns? && act.move.status < 500 ==> !act.move.body.Empty?
    ensures Full(t)
  {
  }

  /** Then every done row has its response, so a response once stored is kept: no database
      fault and no interleaving makes the key execute again before the sweep. */
  lemma {:induction false} BodiedIsKept(acts: seq<Act>, trace: seq<State>, i: nat)
    requires IsRun(acts, trace) && i <= |acts| && Bodied(acts)
    ensures Full(trace[i]) && (Done(trace[i].row) ==> Kept(trace[i]))
  {
    if i > 0 {
      hide Step, Full, Kept;
      BodiedIsKept(acts, trace, i - 1);
      assert Link(acts, trace, i - 1);
      StepFills(acts[i - 1], trace[i - 1], trace[i]);
      if Done(trace[i].row) { FullIsKept(trace[i]); }
    }
  }

  lemma {:induction false} FullIsKept(s: State)
    requires Full(s) && Done(s.row)
    ensures Kept(s)
  {
  }

  /** With bodies, a finalize that took effect is the last execution until the sweep. */
  lemma {:induction false} FinalizedExecutesOnce(acts: seq<Act>, trace: seq<State>, i: nat, j: nat)
    requires IsRun(acts, trace) && i <= j <= |acts| && Bodied(acts) && Timely(acts, trace, i) && Done(trace[i].row)
    ensures Stands(trace, i, j) <==> !SweptBetween(acts, i, j)
  {
    BodiedIsKept(acts, trace, i);
    KeptUntilSwept(acts, trace, i, j);
  }

  /** A done row that is not kept is one call from going: its owner, whose finalize took
      effect but reported an error, finds no response and drops it. */
  lemma {:induction false} UnkeptCanGo(s: State) returns (id: nat)
    requires Inv(s) && Done(s.row) && !Kept(s)
    ensures id in s.requests && s.requests[id].Releasing?
    ensures s.row.value.response.None?
    ensures forall t :: Step(Go(id, Database(Fine)), s, t) ==>
            t.row == None && t.log == s.log + [Dropped(id, NotStored)]
  {
    id :| id in s.requests && Owns(s.requests[id]);
    assert Owned(s, id);
  }

  /** So a done key executes again although its finalize took effect: a handler that
      answers with an empty body, and a database error reported after the update. */
  method RunsAgain(hash: string) returns (ghost trace: seq<State>, ghost acts: seq<Act>)
    ensures IsRun(acts, trace)
    ensures exists i: nat, j: nat ::
              i < j < |trace| && Done(trace[i].row) && |trace[i].log| < |trace[j].log|
              && trace[j].log[|trace[j].log| - 1] == Began(2, hash)
  {
    var steps := [Arrive(1, hash), Go(1, Database(Fine)), Go(1, Returns(204, Empty)), Go(1, Database(Late)),
                  Go(1, Database(Fine)), Arrive(2, hash), Go(2, Database(Fine))];
    acts := steps;
    trace := Serve(steps);
    Replays(acts, trace, hash);
    assert 4 < 7 < |trace|;
  }

  lemma {:induction false} Replays(acts: seq<Act>, trace: seq<State>, hash: string)
    requires acts == [Arrive(1, hash), Go(1, Database(Fine)), Go(1, Returns(204, Empty)), Go(1, Database(Late)),
                      Go(1, Database(Fine)), Arrive(2, hash), Go(2, Database(Fine))]
    requires IsRun(acts, trace)
    ensures Done(trace[4].row) && trace[4].log == [Began(1, hash)]
    ensures trace[7].log == [Began(1, hash), Dropped(1, NotStored), Began(2, hash)]
  {
    assert Link(acts, trace, 0);
    assert Link(acts, trace, 1);
    assert trace[2].row == Some(Row(hash, None, None)) && trace[2].requests[1] == Running(hash);
    assert Link(acts, trace, 2);
    assert Link(acts, trace, 3);
    assert trace[4].row == Some(Row(hash, Some(204), None)) && trace[4].requests[1] == Releasing(hash, NotStored);
    assert Link(acts, trace, 4);
    assert trace[5].row == None && trace[5].log == [Began(1, hash), Dropped(1, NotStored)];
    assert Link(acts, trace, 5);
    assert Link(acts, trace, 6);
  }

  // ---- and once nobody holds it ----

  /** Claimed, not done, and nobody left to finish: its process died, or its release was lost. */
  ghost predicate Wedged(s: State) {
    Pending(s.row) && Free(s)
  }

  lemma {:induction false} StepKeepsWedged(act: Act, s: State, t: State)
    requires Step(act, s, t) && Wedged(s) && !act.Sweep?
    ensures Wedged(t) && t.row == s.row && t.log == s.log
  {
  }

  lemma {:induction false} WedgedStands(acts: seq<Act>, trace: seq<State>, i: nat, j: nat)
    requires IsRun(acts, trace) && i <= j <= |acts| && Wedged(trace[i])
    requires forall k :: i <= k < j ==> !acts[k].Sweep?
    ensures Wedged(trace[j]) && Stands(trace, i, j)
    decreases j
  {
    if i < j {
      hide Wedged, Step;
      WedgedStands(acts, trace, i, j - 1);
      assert Link(acts, trace, j - 1);
      StepKeepsWedged(acts[j - 1], trace[j - 1], trace[j]);
    }
  }

  /** No request executes under a wedged key, exactly until the sweep takes its row. */
  lemma {:induction false} WedgedUntilSwept(acts: seq<Act>, trace: seq<State>, i: nat, j: nat)
    requires IsRun(acts, trace) && i <= j <= |acts| && Wedged(trace[i])
    ensures Stands(trace, i, j) <==> !SweptBetween(acts, i, j)
    ensures !SweptBetween(acts, i, j) ==> Wedged(trace[j])
  {
    assert |trace| == |acts| + 1;
    hide Wedged, Stands, IsRun;
    if SweptBetween(acts, i, j) {
      DoneIsThere(trace[i]);
      SweepBreaks(acts, trace, i, j);
    } else {
      WedgedStands(acts, trace, i, j);
    }
  }

  /** And after it the next request executes. */
  lemma {:induction false} SweptExecutes(s: State, other: nat, hash: string, a: State, b: State, t: State)
    requires other !in s.requests && Step(Sweep, s, a) && Step(Arrive(other, hash), a, b)
             && Step(Go(other, Database(Fine)), b, t)
    ensures other in t.requests && t.requests[other] == Running(hash) && t.log == a.log + [Began(other, hash)]
  {
    assert a.row == None && b.requests[other] == Arrived(hash);
  }

  /** A key is wedged by three moves and no others: its owner dies, its owner's release is
      lost, or a claim takes effect and reports an error. */
  lemma {:induction false} WhatWedges(act: Act, s: State, t: State)
    requires Inv(s) && Step(act, s, t) && !Wedged(s)
    ensures Wedged(t) <==>
              act.Go? && act.id in s.requests
              && var pc := s.requests[act.id];
                 || (Owns(pc) && Pending(s.row) && (act.move.Dies? || (pc.Releasing? && act.move == Database(Lost))))
                 || (pc.Arrived? && s.row.None? && act.move == Database(Late))
  {
    if act.Go? && act.id in s.requests && Owns(s.requests[act.id]) { assert Owned(s, act.id); }
    if i :| i in s.requests && Owns(s.requests[i]) { assert Owned(s, i); assert i in t.requests; }
  }
}
