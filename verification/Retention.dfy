/** agent/internal/container/rollout.go: which image tags a deploy prunes. */
module Retention {
  import opened Wrappers
  import opened Lex

  const DefaultImageRetention := 20

  /** The tags under the prefix, newest first, each at its first place only. */
  function Tags(prefix: string, all: seq<string>): seq<string> {
    if all == [] then []
    else
      var t, rest := all[|all| - 1], Tags(prefix, all[..|all| - 1]);
      if prefix <= t && t !in rest then rest + [t] else rest
  }

  /** Those no container of the resource uses. */
  function Idle(tags: seq<string>, inUse: set<string>): seq<string> {
    if tags == [] then []
    else Idle(tags[..|tags| - 1], inUse) + if tags[|tags| - 1] in inUse then [] else [tags[|tags| - 1]]
  }

  function Flat(images: seq<seq<string>>): seq<string> {
    if images == [] then [] else Flat(images[..|images| - 1]) + images[|images| - 1]
  }

  function Keep(keep: int): nat {
    if keep <= 0 then DefaultImageRetention else keep
  }

  lemma {:induction false} IdleIs(prefix: string, all: seq<string>, inUse: set<string>)
    ensures var idle := Idle(Tags(prefix, all), inUse);
            Distinct(idle) && forall t :: t in idle <==> t in all && prefix <= t && t !in inUse
  {
    TagsAre(prefix, all);
    IdleOf(Tags(prefix, all), inUse);
  }

  lemma {:induction false} TagsAre(prefix: string, all: seq<string>)
    ensures Distinct(Tags(prefix, all)) && forall t :: t in Tags(prefix, all) <==> t in all && prefix <= t
  {
    if all != [] {
      TagsAre(prefix, all[..|all| - 1]);
      assert all == all[..|all| - 1] + [all[|all| - 1]];
    }
  }

  lemma {:induction false} IdleOf(tags: seq<string>, inUse: set<string>)
    requires Distinct(tags)
    ensures Distinct(Idle(tags, inUse)) && forall t :: t in Idle(tags, inUse) <==> t in tags && t !in inUse
  {
    if tags != [] {
      IdleOf(tags[..|tags| - 1], inUse);
      assert tags == tags[..|tags| - 1] + [tags[|tags| - 1]];
    }
  }

  /** The first place of `t` in the listing is tag `j` of image `i`. */
  ghost predicate FirstAt(listing: seq<seq<string>>, t: string, i: nat, j: nat) {
    && i < |listing| && j < |listing[i]| && listing[i][j] == t && t !in listing[i][..j]
    && forall k :: 0 <= k < i ==> t !in listing[k]
  }

  /** The index of the first `t` of a flat list. */
  ghost predicate FirstIn(all: seq<string>, t: string, p: nat) {
    p < |all| && all[p] == t && t !in all[..p]
  }

  lemma {:induction false} FirstInMore(all: seq<string>, t: string, p: nat, more: seq<string>)
    requires FirstIn(all, t, p)
    ensures FirstIn(all + more, t, p)
  {
    assert (all + more)[..p] == all[..p];
  }

  /** Of two tags kept, the one that comes first was listed first. */
  lemma {:induction false} TagsInOrder(prefix: string, all: seq<string>, a: nat, b: nat) returns (p: nat, q: nat)
    requires a < b < |Tags(prefix, all)|
    ensures p < q && FirstIn(all, Tags(prefix, all)[a], p) && FirstIn(all, Tags(prefix, all)[b], q)
  {
    var init, last := all[..|all| - 1], all[|all| - 1];
    var rest := Tags(prefix, init);
    assert all == init + [last];
    if b < |rest| {
      p, q := TagsInOrder(prefix, init, a, b);
      FirstInMore(init, rest[a], p, [last]);
      FirstInMore(init, rest[b], q, [last]);
    } else {
      TagsAre(prefix, init);
      p := FirstPlace(init, rest[a]);
      FirstInMore(init, rest[a], p, [last]);
      q := |init|;
      assert all[..q] == init;
    }
  }

  lemma {:induction false} FirstPlace(all: seq<string>, t: string) returns (p: nat)
    requires t in all
    ensures FirstIn(all, t, p)
  {
    var init := all[..|all| - 1];
    assert all == init + [all[|all| - 1]];
    if t in init {
      p := FirstPlace(init, t);
      FirstInMore(init, t, p, [all[|all| - 1]]);
    } else {
      p := |init|;
    }
  }

  lemma {:induction false} IdleInOrder(tags: seq<string>, inUse: set<string>, a: nat, b: nat) returns (c: nat, d: nat)
    requires a < b < |Idle(tags, inUse)|
    ensures c < d < |tags| && Idle(tags, inUse)[a] == tags[c] && Idle(tags, inUse)[b] == tags[d]
  {
    var init := tags[..|tags| - 1];
    assert tags == init + [tags[|tags| - 1]];
    if b < |Idle(init, inUse)| {
      c, d := IdleInOrder(init, inUse, a, b);
    } else {
      d := |init|;
      c := IdlePlace(init, inUse, a);
    }
  }

  lemma {:induction false} IdlePlace(tags: seq<string>, inUse: set<string>, a: nat) returns (c: nat)
    requires a < |Idle(tags, inUse)|
    ensures c < |tags| && Idle(tags, inUse)[a] == tags[c]
  {
    var init := tags[..|tags| - 1];
    if a < |Idle(init, inUse)| { c := IdlePlace(init, inUse, a); } else { c := |init|; }
  }

  /** A first place in the flat list is one in the listing, and later ones are later. */
  lemma {:induction false} Unflat(listing: seq<seq<string>>, t: string, p: nat) returns (i: nat, j: nat)
    requires FirstIn(Flat(listing), t, p)
    ensures FirstAt(listing, t, i, j) && p == |Flat(listing[..i])| + j
  {
    var front, last := listing[..|listing| - 1], listing[|listing| - 1];
    var all := Flat(front);
    assert listing == front + [last];
    if p < |all| {
      assert Flat(listing)[..p] == all[..p];
      i, j := Unflat(front, t, p);
      assert listing[..i] == front[..i] && listing[i] == front[i];
    } else {
      i, j := |front|, p - |all|;
      assert listing[..i] == front;
      assert Flat(listing)[..p] == all + last[..j];
      forall k | 0 <= k < i ensures t !in listing[k] {
        if t in listing[k] { FlatHolds(front, t, k); }
      }
    }
  }

  lemma {:induction false} FlatHolds(listing: seq<seq<string>>, t: string, k: nat)
    requires k < |listing| && t in listing[k]
    ensures t in Flat(listing)
  {
    if k < |listing| - 1 { FlatHolds(listing[..|listing| - 1], t, k); }
  }

  lemma {:induction false} FlatGrows(listing: seq<seq<string>>, i: nat, k: nat)
    requires i < k <= |listing|
    ensures |Flat(listing[..i])| + |listing[i]| <= |Flat(listing[..k])|
    decreases k
  {
    assert listing[..k][..k - 1] == listing[..k - 1];
    if i < k - 1 { FlatGrows(listing, i, k - 1); }
  }

  /** Newest first: of two idle tags the one that is kept longer has its first place earlier
      in the daemon's listing, by image and then by tag. */
  lemma {:induction false} NewestFirst(listing: seq<seq<string>>, prefix: string, inUse: set<string>, a: nat, b: nat)
    returns (i: nat, j: nat, k: nat, l: nat)
    requires a < b < |Idle(Tags(prefix, Flat(listing)), inUse)|
    ensures var idle := Idle(Tags(prefix, Flat(listing)), inUse);
            FirstAt(listing, idle[a], i, j) && FirstAt(listing, idle[b], k, l)
    ensures i < k || (i == k && j < l)
  {
    var all := Flat(listing);
    var tags := Tags(prefix, all);
    var c, d := IdleInOrder(tags, inUse, a, b);
    var p, q := TagsInOrder(prefix, all, c, d);
    i, j := Unflat(listing, tags[c], p);
    k, l := Unflat(listing, tags[d], q);
    if k < i { FlatGrows(listing, k, i); }
  }

  /** retainImages: the removals it attempts, in order; whether one works changes nothing. */
  method RetainImages(listing: Option<seq<seq<string>>>, prefix: string, keep: int,
                      inUse: set<string>) returns (attempts: seq<string>)
    ensures prefix == "" || listing.None? ==> attempts == []
    ensures prefix != "" && listing.Some? ==>
              var idle := Idle(Tags(prefix, Flat(listing.value)), inUse);
              attempts == if |idle| <= Keep(keep) then [] else idle[Keep(keep)..]
    // A retention that is not set stands for twenty.
    ensures prefix != "" && listing.Some? ==>
              var idle := Idle(Tags(prefix, Flat(listing.value)), inUse);
              |attempts| == if keep <= 0 then (if |idle| <= 20 then 0 else |idle| - 20)
                            else if |idle| <= keep then 0 else |idle| - keep
  {
    attempts := [];
    var slots := if keep <= 0 then DefaultImageRetention else keep;
    if prefix == "" { return; }
    if listing.None? { return; }
    var tags := CollectTags(listing.value, prefix);
    var kept := 0;
    ghost var idle: seq<string> := [];
    for i := 0 to |tags|
      invariant idle == Idle(tags[..i], inUse)
      invariant kept == if |idle| <= slots then |idle| else slots
      invariant attempts == if |idle| <= slots then [] else idle[slots..]
    {
      assert tags[..i + 1][..i] == tags[..i];
      if tags[i] !in inUse {
        idle := idle + [tags[i]];
        if kept < slots { kept := kept + 1; } else { attempts := attempts + [tags[i]]; }
      }
    }
    assert tags[..|tags|] == tags;
  }

  method CollectTags(images: seq<seq<string>>, prefix: string) returns (tags: seq<string>)
    ensures tags == Tags(prefix, Flat(images))
  {
    tags := [];
    var seen: set<string> := {};
    for i := 0 to |images|
      invariant tags == Tags(prefix, Flat(images[..i])) && Elements(tags) == seen
    {
      tags, seen := CollectImage(images[i], prefix, tags, seen, Flat(images[..i]));
      assert images[..i + 1][..i] == images[..i];
    }
    assert images[..|images|] == images;
  }

  method CollectImage(image: seq<string>, prefix: string, tags: seq<string>, seen: set<string>,
                      ghost before: seq<string>)
    returns (tags': seq<string>, seen': set<string>)
    requires tags == Tags(prefix, before) && Elements(tags) == seen
    ensures tags' == Tags(prefix, before + image) && Elements(tags') == seen'
  {
    tags', seen' := tags, seen;
    assert before + image[..0] == before;
    for j := 0 to |image|
      invariant tags' == Tags(prefix, before + image[..j]) && Elements(tags') == seen'
    {
      TagsSnoc(prefix, before + image[..j], image[j]);
      assert before + image[..j + 1] == before + image[..j] + [image[j]];
      if prefix <= image[j] && image[j] !in seen' {
        ElementsSnoc(tags', image[j]);
        tags', seen' := tags' + [image[j]], seen' + {image[j]};
      }
    }
    assert image[..|image|] == image;
  }

  lemma {:induction false} TagsSnoc(prefix: string, all: seq<string>, t: string)
    ensures Tags(prefix, all + [t]) == if prefix <= t && t !in Elements(Tags(prefix, all))
            then Tags(prefix, all) + [t] else Tags(prefix, all)
  {
    assert (all + [t])[..|all|] == all;
  }

  /** The offered rollback targets, of which the oldest is at `last`, all survive exactly
      when the other idle tags among them leave them room: at most `keep` less the number
      of targets. With ten targets and the default of twenty, ten. */
  lemma {:induction false} OfferedSurvive(idle: seq<string>, keep: nat, offered: set<string>, last: nat)
    requires Distinct(idle) && last < |idle| && idle[last] in offered && offered <= Elements(idle[..last + 1])
    ensures var attempts := if |idle| <= keep then [] else idle[keep..];
            (forall t :: t in offered ==> t !in attempts) <==>
                |Elements(idle[..last + 1]) - offered| + |offered| <= keep
  {
    var near := idle[..last + 1];
    DistinctSize(near);
    assert Elements(near) == (Elements(near) - offered) + offered;
    var attempts := if |idle| <= keep then [] else idle[keep..];
    if last + 1 <= keep {
      forall t | t in offered ensures t !in attempts {
        assert t in near;
        var i :| 0 <= i <= last && idle[i] == t;
      }
    } else {
      assert idle[last] == idle[keep..][last - keep];
    }
  }
}
