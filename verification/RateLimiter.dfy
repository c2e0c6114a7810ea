/** agent/internal/container/ratelimit.go: the token bucket, over exact arithmetic. */
module RateLimiter {

  /** One call of allow: the latest clock reading so far, and its answer. */
  datatype Event = Event(at: real, granted: bool)

  /** What a bucket earns between two readings. */
  function Gain(rate: real, from: real, to: real): real {
    rate * (to - from)
  }

  lemma {:induction false} GainAdds(rate: real, a: real, b: real, c: real)
    ensures Gain(rate, a, b) + Gain(rate, b, c) == Gain(rate, a, c)
  {
    assert rate * (b - a) + rate * (c - b) == rate * ((b - a) + (c - b));
  }

  lemma {:induction false} GainGrows(rate: real, a: real, b: real)
    requires rate >= 0.0 && a <= b
    ensures Gain(rate, a, b) >= 0.0
  {
  }

  function Latest(start: real, run: seq<Event>): real {
    if run == [] then start else run[|run| - 1].at
  }

  function Grants(run: seq<Event>): nat {
    if run == [] then 0 else Grants(run[..|run| - 1]) + if run[|run| - 1].granted then 1 else 0
  }

  predicate Ordered(start: real, run: seq<Event>) {
    && (forall i :: 0 <= i < |run| ==> start <= run[i].at)
    && (forall i, j :: 0 <= i < j < |run| ==> run[i].at <= run[j].at)
  }

  /** The tokens left after a run, and those there for a call at `at` after it. */
  function Tokens(max: real, rate: real, start: real, run: seq<Event>): real
    decreases |run|, 0
  {
    if run == [] then max
    else
      var last := run[|run| - 1];
      Refilled(max, rate, start, run[..|run| - 1], last.at) - if last.granted then 1.0 else 0.0
  }

  function Refilled(max: real, rate: real, start: real, run: seq<Event>, at: real): real
    decreases |run|, 1
  {
    Filled(Tokens(max, rate, start, run), max, rate, Latest(start, run), at)
  }

  function Filled(tokens: real, max: real, rate: real, from: real, to: real): real {
    var full := tokens + Gain(rate, from, to);
    if full > max then max else full
  }

  lemma {:induction false} NothingGained(tokens: real, max: real, rate: real, at: real)
    requires tokens <= max
    ensures Filled(tokens, max, rate, at, at) == tokens
  {
    assert rate * (at - at) == 0.0;
  }

  /** The most that a window which opens with call `s` of the run and closes at `at` may grant. */
  function Allowance(max: real, rate: real, run: seq<Event>, at: real, s: nat): real
    requires s <= |run|
  {
    max + Gain(rate, if s < |run| then run[s].at else at, at)
  }

  /** One grant more stays within every window that closes at `at`. */
  ghost predicate Fits(max: real, rate: real, run: seq<Event>, at: real) {
    forall s :: 0 <= s <= |run| ==> Grants(run[s..]) as real + 1.0 <= Allowance(max, rate, run, at, s)
  }

  lemma {:induction false} GrantsSnoc(run: seq<Event>, e: Event, s: nat)
    requires s <= |run|
    ensures Grants((run + [e])[s..]) == Grants(run[s..]) + if e.granted then 1 else 0
  {
    assert (run + [e])[s..] == run[s..] + [e];
    assert (run[s..] + [e])[..|run[s..]|] == run[s..];
  }

  /** What a window leaves after it: tokens never exceed it. */
  lemma {:induction false} EveryWindowBinds(max: real, rate: real, start: real, run: seq<Event>, at: real, s: nat)
    requires rate >= 0.0 && Ordered(start, run + [Event(at, false)]) && s <= |run|
    ensures Refilled(max, rate, start, run, at) <= Allowance(max, rate, run, at, s) - Grants(run[s..]) as real
    decreases |run|
  {
    assert (run + [Event(at, false)])[|run|].at == at;
    if s == |run| {
      assert run[s..] == [];
      assert Gain(rate, at, at) == 0.0;
    } else {
      var init, last := run[..|run| - 1], run[|run| - 1];
      assert run == init + [last];
      OrderedInit(start, init, last, at);
      EveryWindowBinds(max, rate, start, init, last.at, s);
      GrantsSnoc(init, last, s);
      GainAdds(rate, run[s].at, last.at, at);
      assert s < |init| ==> init[s] == run[s];
    }
  }

  /** And they are just what the tightest window leaves. */
  lemma {:induction false} SomeWindowIsTight(max: real, rate: real, start: real, run: seq<Event>,
                                             at: real) returns (s: nat)
    requires rate >= 0.0 && Ordered(start, run + [Event(at, false)])
    ensures s <= |run| && Refilled(max, rate, start, run, at) ==
            Allowance(max, rate, run, at, s) - Grants(run[s..]) as real
    decreases |run|
  {
    assert (run + [Event(at, false)])[|run|].at == at;
    assert Gain(rate, at, at) == 0.0;
    s := |run|;
    assert run[s..] == [];
    if Refilled(max, rate, start, run, at) != max {
      if run == [] {
        GainGrows(rate, start, at);
      } else {
        var init, last := run[..|run| - 1], run[|run| - 1];
        assert run == init + [last];
        OrderedInit(start, init, last, at);
        s := SomeWindowIsTight(max, rate, start, init, last.at);
        GrantsSnoc(init, last, s);
        GainAdds(rate, run[s].at, last.at, at);
        assert s < |init| ==> init[s] == run[s];
      }
    }
  }

  lemma {:induction false} OrderedInit(start: real, init: seq<Event>, last: Event, at: real)
    requires Ordered(start, init + [last] + [Event(at, false)])
    ensures Ordered(start, init + [Event(last.at, false)]) && Ordered(start, init + [last])
  {
    var all := init + [last] + [Event(at, false)];
    forall i | 0 <= i <= |init|
      ensures (init + [Event(last.at, false)])[i].at == all[i].at && (init + [last])[i] == all[i]
    {}
  }

  /** A token is there exactly when one grant more stays within every window: the bucket
      is the most generous limiter that respects them all. */
  lemma {:induction false} TokenIffFits(max: real, rate: real, start: real, run: seq<Event>, at: real)
    requires rate >= 0.0 && Ordered(start, run + [Event(at, false)])
    ensures Refilled(max, rate, start, run, at) >= 1.0 <==> Fits(max, rate, run, at)
  {
    forall s | 0 <= s <= |run|
      ensures Refilled(max, rate, start, run, at) <= Allowance(max, rate, run, at, s) - Grants(run[s..]) as real
    {
      EveryWindowBinds(max, rate, start, run, at, s);
    }
    var s := SomeWindowIsTight(max, rate, start, run, at);
  }

  /** Every answer was what the tokens said. */
  ghost predicate Answered(max: real, rate: real, start: real, run: seq<Event>) {
    && Ordered(start, run)
    && forall i :: 0 <= i < |run| ==> (run[i].granted <==> Refilled(max, rate, start, run[..i], run[i].at) >= 1.0)
  }

  /** The calls from `s` on, before `e`, that were granted. */
  ghost function Granted(run: seq<Event>, s: nat, e: nat): set<nat>
    requires e <= |run|
  {
    set i: nat | s <= i < e && run[i].granted
  }

  lemma {:induction false} GrantsCount(run: seq<Event>, s: nat)
    requires s <= |run|
    ensures Grants(run[s..]) == |Granted(run, s, |run|)|
    decreases |run|
  {
    if s < |run| {
      var init, last := run[..|run| - 1], run[|run| - 1];
      GrantsCount(init, s);
      assert run[s..][..|run| - s - 1] == init[s..];
      assert Granted(init, s, |init|) == Granted(run, s, |init|);
      assert Granted(run, s, |run|) == Granted(run, s, |init|) + if last.granted then {|init|} else {};
    } else {
      assert run[s..] == [] && Granted(run, s, |run|) == {};
    }
  }

  /** What fits, in plain terms: the burst allows one grant, and every window that starts at a
      call and ends now has room for one more. */
  lemma {:induction false} FitsPlainly(max: real, rate: real, run: seq<Event>, at: real)
    ensures Fits(max, rate, run, at) <==>
            && 1.0 <= max
            && forall s :: 0 <= s < |run| ==>
                 |Granted(run, s, |run|)| as real + 1.0 <= max + rate * (at - run[s].at)
  {
    forall s | 0 <= s <= |run| ensures Grants(run[s..]) == |Granted(run, s, |run|)| { GrantsCount(run, s); }
    assert Granted(run, |run|, |run|) == {};
    assert Gain(rate, at, at) == 0.0;
    forall s | 0 <= s < |run| ensures Allowance(max, rate, run, at, s) == max + rate * (at - run[s].at) {}
    if && 1.0 <= max
       && forall s :: 0 <= s < |run| ==> |Granted(run, s, |run|)| as real + 1.0 <= max + rate * (at - run[s].at) {
      forall s | 0 <= s <= |run| ensures Grants(run[s..]) as real + 1.0 <= Allowance(max, rate, run, at, s) {}
    }
  }

  lemma {:induction false} WindowGain(max: real, rate: real, start: real, run: seq<Event>, s: nat, e: nat)
    requires rate >= 0.0 && max >= 0.0 && Answered(max, rate, start, run) && s <= e < |run|
    ensures Grants(run[s..e + 1]) as real <= max + Gain(rate, run[s].at, run[e].at)
    decreases e
  {
    hide Refilled;
    var before, last := run[..e], run[e];
    assert run[..e + 1][s..] == run[s..e + 1] && before[s..] == run[s..e] && run[..e + 1] == before + [last];
    GrantsSnoc(before, last, s);
    GainGrows(rate, run[s].at, last.at);
    if last.granted {
      assert Ordered(start, before + [Event(last.at, false)]);
      TokenIffFits(max, rate, start, before, last.at);
      assert Fits(max, rate, before, last.at);
      assert Grants(before[s..]) as real + 1.0 <= Allowance(max, rate, before, last.at, s);
    } else if s < e {
      WindowGain(max, rate, start, run, s, e - 1);
      GainAdds(rate, run[s].at, run[e - 1].at, last.at);
      GainGrows(rate, run[e - 1].at, last.at);
    } else {
      assert run[s..e] == [];
    }
  }

  /** Within any window, from call `s` to call `e`, at most burst + rate * length are granted. */
  lemma {:induction false} WindowBound(max: real, rate: real, start: real, run: seq<Event>, s: nat, e: nat)
    requires rate >= 0.0 && max >= 0.0 && Answered(max, rate, start, run) && s <= e < |run|
    ensures Grants(run[s..e + 1]) as real <= max + rate * (run[e].at - run[s].at)
  {
    WindowGain(max, rate, start, run, s, e);
  }

  lemma {:induction false} TokensBounded(max: real, rate: real, start: real, run: seq<Event>)
    requires rate >= 0.0 && max >= 0.0 && Answered(max, rate, start, run)
    ensures 0.0 <= Tokens(max, rate, start, run) <= max
    decreases |run|
  {
    if run != [] {
      var init, last := run[..|run| - 1], run[|run| - 1];
      assert forall i :: 0 <= i < |init| ==> init[..i] == run[..i];
      TokensBounded(max, rate, start, init);
      GainGrows(rate, Latest(start, init), last.at);
    }
  }

  class RateLimiter {
    const max: real
    const perSec: real
    ghost const start: real
    var tokens: real
    var lastFill: real
    ghost var run: seq<Event>

    ghost predicate Valid()
      reads this
    {
      && perSec >= 0.0 && Answered(max, perSec, start, run)
      && tokens == Tokens(max, perSec, start, run) && lastFill == Latest(start, run)
    }

    constructor (burst: nat, perSec: real, now: real)
      requires perSec >= 0.0
      ensures Valid() && max == burst as real && this.perSec == perSec && run == []
    {
      this.max, this.perSec, this.start := burst as real, perSec, now;
      tokens, lastFill, run := burst as real, now, [];
    }

    /** allow, at a clock reading of `now`. A reading behind an earlier one counts as that one. */
    method Allow(now: real) returns (granted: bool)
      requires Valid() && max >= 0.0
      modifies `tokens, `lastFill, `run
      ensures Valid() && run == old(run) + [Event(if now > old(lastFill) then now else old(lastFill), granted)]
      ensures granted <==> Fits(max, perSec, old(run), lastFill)
      ensures 0.0 <= tokens <= max
    {
      hide Fits, Tokens, Refilled, Answered, Ordered, Latest;
      TokensBounded(max, perSec, start, run);
      var elapsed := now - lastFill;
      ghost var at := if elapsed > 0.0 then now else lastFill;
      NothingGained(tokens, max, perSec, lastFill);
      RefilledIs(max, perSec, start, run, at);
      if elapsed > 0.0 {
        assert elapsed * perSec == Gain(perSec, lastFill, now);
        tokens := tokens + elapsed * perSec;
        if tokens > max { tokens := max; }
        lastFill := now;
      }
      assert tokens == Refilled(max, perSec, start, run, at);
      OneMore(max, perSec, start, run, at);
      TokenIffFits(max, perSec, start, run, at);
      granted := tokens >= 1.0;
      Answers(max, perSec, start, run, Event(at, granted));
      run := run + [Event(at, granted)];
      if granted { tokens := tokens - 1.0; }
      TokensBounded(max, perSec, start, run);
      LatestIs(start, run);
    }
  }

  lemma {:induction false} RefilledIs(max: real, rate: real, start: real, run: seq<Event>, at: real)
    ensures Refilled(max, rate, start, run, at) ==
            Filled(Tokens(max, rate, start, run), max, rate, Latest(start, run), at)
  {
  }

  lemma {:induction false} LatestIs(start: real, run: seq<Event>)
    ensures run != [] ==> Latest(start, run) == run[|run| - 1].at
  {
  }

  lemma {:induction false} OneMore(max: real, rate: real, start: real, run: seq<Event>, at: real)
    requires Answered(max, rate, start, run) && Latest(start, run) <= at
    ensures Ordered(start, run + [Event(at, false)])
  {
  }

  lemma {:induction false} Answers(max: real, rate: real, start: real, run: seq<Event>, e: Event)
    requires Answered(max, rate, start, run) && Ordered(start, run + [Event(e.at, false)])
    requires e.granted <==> Refilled(max, rate, start, run, e.at) >= 1.0
    ensures Answered(max, rate, start, run + [e])
    ensures Tokens(max, rate, start, run + [e]) == Refilled(max, rate, start, run, e.at) - if e.granted then 1.0
            else 0.0
  {
    hide Refilled;
    var more := run + [e];
    assert more[..|run|] == run;
    assert Ordered(start, more) by {
      assert forall i :: 0 <= i <= |run| ==> (run + [Event(e.at, false)])[i].at == more[i].at;
    }
    forall i | 0 <= i < |more| ensures more[i].granted <==> Refilled(max, rate, start, more[..i], more[i].at) >= 1.0 {
      assert i < |run| ==> more[..i] == run[..i];
    }
  }
}
