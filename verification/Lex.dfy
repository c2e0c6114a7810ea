/** Byte order on strings: the order bbolt keeps its keys in and `sort.Strings` sorts by. */
module Lex {

  predicate Le(a: string, b: string) {
    |a| == 0 || (|b| != 0 && (a[0] < b[0] || (a[0] == b[0] && Le(a[1..], b[1..]))))
  }

  predicate Lt(a: string, b: string) {
    Le(a, b) && a != b
  }

  lemma {:induction false} Reflexive(a: string)
    ensures Le(a, a)
  {
    if |a| != 0 { Reflexive(a[1..]); }
  }

  lemma {:induction false} Total(a: string, b: string)
    ensures Le(a, b) || Le(b, a)
  {
    if |a| != 0 && |b| != 0 { Total(a[1..], b[1..]); }
  }

  lemma {:induction false} Antisymmetric(a: string, b: string)
    requires Le(a, b) && Le(b, a)
    ensures a == b
  {
    if |a| != 0 {
      Antisymmetric(a[1..], b[1..]);
      assert a == [a[0]] + a[1..] && b == [b[0]] + b[1..];
    }
  }

  lemma {:induction false} Transitive(a: string, b: string, c: string)
    requires Le(a, b) && Le(b, c)
    ensures Le(a, c)
  {
    if |a| != 0 && a[0] == b[0] == c[0] { Transitive(a[1..], b[1..], c[1..]); }
  }

  /** The first byte in which two strings differ decides. */
  lemma {:induction false} FirstDifference(a: string, b: string, k: nat)
    requires k < |a| && k < |b| && a[..k] == b[..k] && a[k] < b[k]
    ensures Lt(a, b) && !Le(b, a)
  {
    assert a[k] != b[k];
    if k > 0 {
      assert a[0] == a[..k][0] == b[0];
      assert a[1..][..k - 1] == a[..k][1..] && b[1..][..k - 1] == b[..k][1..];
      FirstDifference(a[1..], b[1..], k - 1);
    }
  }

  lemma {:induction false} PrefixIsLe(p: string, s: string)
    requires p <= s
    ensures Le(p, s)
  {
    if |p| != 0 { PrefixIsLe(p[1..], s[1..]); }
  }

  /** The strings that start with `p` form one run of the order that begins at `p`:
      once a scan upwards from `p` has left them it never meets another. */
  lemma {:induction false} PrefixRun(p: string, k: string, k': string)
    requires Le(p, k) && !(p <= k) && Le(k, k')
    ensures !(p <= k')
  {
    if |p| != 0 && |k'| != 0 && p[0] == k[0] == k'[0] {
      PrefixRun(p[1..], k[1..], k'[1..]);
    }
  }

  predicate Distinct(s: seq<string>) {
    forall i, j :: 0 <= i < j < |s| ==> s[i] != s[j]
  }

  function Elements(s: seq<string>): set<string> {
    set n | n in s
  }

  lemma {:induction false} ElementsSnoc(s: seq<string>, t: string)
    ensures Elements(s + [t]) == Elements(s) + {t}
  {
  }

  lemma {:induction false} DistinctInit(s: seq<string>)
    requires Distinct(s) && s != []
    ensures Distinct(s[..|s| - 1]) && s == s[..|s| - 1] + [s[|s| - 1]] && s[|s| - 1] !in s[..|s| - 1]
  {
  }

  /** Distinct strings are as many as their set. */
  lemma {:induction false} DistinctSize(s: seq<string>)
    requires Distinct(s)
    ensures |Elements(s)| == |s|
  {
    if s != [] {
      var init, last := s[..|s| - 1], s[|s| - 1];
      DistinctInit(s);
      DistinctSize(init);
      hide Distinct;
      ElementsSnoc(init, last);
    }
  }

  /** Each occurs once. */
  lemma {:induction false} DistinctCount(s: seq<string>, n: string)
    requires Distinct(s)
    ensures multiset(s)[n] == if n in s then 1 else 0
  {
    if s != [] {
      var init, last := s[..|s| - 1], s[|s| - 1];
      DistinctInit(s);
      DistinctCount(init, n);
      hide Distinct;
      assert multiset(init + [last]) == multiset(init) + multiset{last};
    }
  }

  /** And a sequence in which each occurs at most once is distinct. */
  lemma {:induction false} CountDistinct(s: seq<string>)
    requires forall n :: multiset(s)[n] <= 1
    ensures Distinct(s)
  {
    forall i, j | 0 <= i < j < |s| ensures s[i] != s[j] {
      assert s == s[..j] + s[j..];
      assert multiset(s) == multiset(s[..j]) + multiset(s[j..]);
      assert s[..j][i] == s[i] && s[j..][0] == s[j];
      assert multiset(s[..j])[s[i]] >= 1 && multiset(s[j..])[s[j]] >= 1;
      assert multiset(s)[s[i]] <= 1;
    }
  }

  predicate Sorted(s: seq<string>) {
    forall i, j :: 0 <= i < j < |s| ==> Le(s[i], s[j])
  }

  function Insert(x: string, s: seq<string>): seq<string> {
    if |s| == 0 then [x]
    else if Le(x, s[0]) then [x] + s
    else [s[0]] + Insert(x, s[1..])
  }

  /** What `sort.Strings` leaves behind. */
  function Sort(s: seq<string>): seq<string> {
    if |s| == 0 then [] else Insert(s[0], Sort(s[1..]))
  }

  lemma {:induction false} SortedCons(k: string, s: seq<string>)
    requires Sorted(s) && forall m :: m in s ==> Le(k, m)
    ensures Sorted([k] + s)
  {
    hide Le;
    forall i, j | 0 <= i < j < |[k] + s| ensures Le(([k] + s)[i], ([k] + s)[j]) {
      assert s[j - 1] in s;
    }
  }

  lemma {:induction false} CountCons(k: string, s: seq<string>)
    ensures multiset([k] + s) == multiset(s) + multiset{k}
    ensures forall m :: m in s <==> m in multiset(s)
  {
  }

  lemma {:induction false} SortedRest(s: seq<string>)
    requires Sorted(s) && |s| != 0
    ensures Sorted(s[1..]) && s == [s[0]] + s[1..] && forall m :: m in s[1..] ==> Le(s[0], m)
  {
    hide Le;
  }

  lemma {:induction false} InsertKeeps(x: string, s: seq<string>)
    requires Sorted(s)
    ensures Sorted(Insert(x, s)) && multiset(Insert(x, s)) == multiset(s) + multiset{x}
  {
    hide Le, Sorted;
    if |s| == 0 {
      SortedNone(x);
    } else {
      var first, rest := s[0], s[1..];
      SortedRest(s);
      CountCons(first, rest);
      if Le(x, first) {
        forall m | m in s ensures Le(x, m) { if m != first { Transitive(x, first, m); } }
        SortedCons(x, s);
        CountCons(x, s);
      } else {
        Total(x, first);
        InsertKeeps(x, rest);
        var t := Insert(x, rest);
        CountCons(first, t);
        forall m | m in t ensures Le(first, m) { assert m in multiset(t); }
        SortedCons(first, t);
      }
    }
  }

  lemma {:induction false} SortedNone(x: string)
    ensures Sorted([]) && Sorted([x])
  {
  }

  lemma {:induction false} Rest(s: seq<string>)
    requires |s| != 0
    ensures multiset(s) == multiset{s[0]} + multiset(s[1..])
  {
    assert s == [s[0]] + s[1..];
  }

  lemma {:induction false} SortSorts(s: seq<string>)
    ensures Sorted(Sort(s)) && multiset(Sort(s)) == multiset(s)
  {
    if |s| != 0 {
      SortSorts(s[1..]);
      InsertKeeps(s[0], Sort(s[1..]));
      Rest(s);
    }
  }

  lemma {:induction false} LeastIsFirst(s: seq<string>, x: string)
    requires Sorted(s) && x in s
    ensures Le(s[0], x)
  {
    Reflexive(x);
  }

  /** A sorted sequence is determined by what it holds. */
  lemma {:induction false} SortedIsUnique(s: seq<string>, t: seq<string>)
    requires Sorted(s) && Sorted(t) && multiset(s) == multiset(t)
    ensures s == t
  {
    assert |multiset(s)| == |s| && |multiset(t)| == |t|;
    if |s| != 0 {
      assert s[0] in multiset(t) && t[0] in multiset(s);
      LeastIsFirst(s, t[0]);
      LeastIsFirst(t, s[0]);
      Antisymmetric(s[0], t[0]);
      Rest(s);
      Rest(t);
      assert multiset(s[1..]) == multiset(s) - multiset{s[0]} == multiset(t[1..]);
      SortedIsUnique(s[1..], t[1..]);
    }
  }
}
