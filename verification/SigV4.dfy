/** agent/internal/s3ops/sigv4.go: percent-encoding and the canonical query string. */
module SigV4 {
  import opened Lex

  predicate Bytes(s: string) {
    forall i :: 0 <= i < |s| ==> s[i] < 256 as char
  }

  /** The unreserved characters of RFC 3986, section 2.3. */
  predicate Unreserved(c: char) {
    'A' <= c <= 'Z' || 'a' <= c <= 'z' || '0' <= c <= '9' || c == '-' || c == '_' || c == '.' || c == '~'
  }

  const UPPERHEX := "0123456789ABCDEF"

  function EncodeByte(c: char, encodeSlash: bool): string
    requires c < 256 as char
  {
    if Unreserved(c) || (c == '/' && !encodeSlash) then [c]
    else ['%', UPPERHEX[c as int / 16], UPPERHEX[c as int % 16]]
  }

  function UriEncode(s: string, encodeSlash: bool): string
    requires Bytes(s)
  {
    if s == "" then "" else EncodeByte(s[0], encodeSlash) + UriEncode(s[1..], encodeSlash)
  }

  lemma {:induction false} EncodeStep(s: string, encodeSlash: bool, i: nat, b: string)
    requires Bytes(s) && i < |s|
    ensures b + UriEncode(s[i..], encodeSlash) == b + EncodeByte(s[i], encodeSlash) + UriEncode(s[i + 1..], encodeSlash)
  {
    assert s[i..][0] == s[i] && s[i..][1..] == s[i + 1..];
  }

  /** uriEncode. */
  method UriEncoded(s: string, encodeSlash: bool) returns (b: string)
    requires Bytes(s)
    ensures b == UriEncode(s, encodeSlash)
  {
    b := "";
    for i := 0 to |s|
      invariant b + UriEncode(s[i..], encodeSlash) == UriEncode(s, encodeSlash)
    {
      EncodeStep(s, encodeSlash, i, b);
      var c := s[i];
      if Unreserved(c) {
        b := b + [c];
      } else if c == '/' && !encodeSlash {
        b := b + [c];
      } else {
        b := b + ['%', UPPERHEX[c as int / 16], UPPERHEX[c as int % 16]];
      }
    }
    assert s[|s|..] == "";
  }

  lemma {:induction false} ByteEncoding(c: char, encodeSlash: bool)
    requires c < 256 as char
    ensures var n := c as int;
            EncodeByte(c, encodeSlash) ==
              if 65 <= n <= 90 || 97 <= n <= 122 || 48 <= n <= 57 || n == 45 || n == 46 || n == 95 || n == 126
                 || (n == 47 && !encodeSlash)
              then [c] else ['%', "0123456789ABCDEF"[n / 16], "0123456789ABCDEF"[n % 16]]
  {
  }

  /** Byte by byte: letters, digits, hyphen, full stop, underscore and tilde stay, and so does
      a slash where it may; any other byte becomes a percent sign and two upper-case hex digits. */
  lemma {:induction false} EncodedByte(s: string, c: char, encodeSlash: bool)
    requires Bytes(s) && c < 256 as char
    ensures Bytes(s + [c]) && UriEncode("", encodeSlash) == ""
    ensures var n := c as int;
            UriEncode(s + [c], encodeSlash) == UriEncode(s, encodeSlash) +
              if 65 <= n <= 90 || 97 <= n <= 122 || 48 <= n <= 57 || n == 45 || n == 46 || n == 95 || n == 126
                 || (n == 47 && !encodeSlash)
              then [c] else ['%', "0123456789ABCDEF"[n / 16], "0123456789ABCDEF"[n % 16]]
  {
    MoreBytes(s, c);
    ByteEncoding(c, encodeSlash);
    EncodeSnoc(s, c, encodeSlash);
  }

  lemma {:induction false} EncodeSnoc(s: string, c: char, encodeSlash: bool)
    requires Bytes(s) && Bytes(s + [c]) && c < 256 as char
    ensures UriEncode(s + [c], encodeSlash) == UriEncode(s, encodeSlash) + EncodeByte(c, encodeSlash)
  {
    hide EncodeByte, Unreserved;
    if s == "" {
      assert (s + [c])[1..] == "";
    } else {
      assert (s + [c])[0] == s[0] && (s + [c])[1..] == s[1..] + [c];
      EncodeSnoc(s[1..], c, encodeSlash);
    }
  }

  lemma {:induction false} MoreBytes(s: string, c: char)
    requires Bytes(s) && c < 256 as char
    ensures Bytes(s + [c])
  {
  }

  // ---- decoding ----

  function HexValue(c: char): nat {
    if '0' <= c <= '9' then c as int - '0' as int else if 'A' <= c <= 'F' then c as int - 'A' as int + 10 else 0
  }

  /** Percent-decoding, section 2.1 of RFC 3986. */
  function UriDecode(s: string): string {
    if s == "" then ""
    else if s[0] == '%' && |s| >= 3 then [((HexValue(s[1]) * 16 + HexValue(s[2])) % 256) as char] + UriDecode(s[3..])
    else [s[0]] + UriDecode(s[1..])
  }

  lemma {:induction false} HexRoundTrip(c: char)
    requires c < 256 as char
    ensures HexValue(UPPERHEX[c as int / 16]) * 16 + HexValue(UPPERHEX[c as int % 16]) == c as int
  {
    HexDigit(c as int / 16);
    HexDigit(c as int % 16);
  }

  lemma {:induction false} HexDigit(n: nat)
    requires n < 16
    ensures HexValue(UPPERHEX[n]) == n && Unreserved(UPPERHEX[n])
  {
  }

  lemma {:induction false} DecodeByte(c: char, encodeSlash: bool, rest: string)
    requires c < 256 as char
    ensures UriDecode(EncodeByte(c, encodeSlash) + rest) == [c] + UriDecode(rest)
  {
    HexRoundTrip(c);
    var e := EncodeByte(c, encodeSlash);
    assert (e + rest)[|e|..] == rest;
  }

  /** Decoding undoes encoding, with and without the slash exception. */
  lemma {:induction false} UriRoundTrip(s: string, encodeSlash: bool)
    requires Bytes(s)
    ensures UriDecode(UriEncode(s, encodeSlash)) == s
  {
    if s != "" {
      UriRoundTrip(s[1..], encodeSlash);
      DecodeByte(s[0], encodeSlash, UriEncode(s[1..], encodeSlash));
    }
  }

  /** An encoded value holds unreserved characters and percent signs only, so none of the
      query's own separators; the exception lets slashes through. */
  lemma {:induction false} EncodedAlphabet(s: string, encodeSlash: bool)
    requires Bytes(s)
    ensures forall c :: c in UriEncode(s, encodeSlash) ==> Unreserved(c) || c == '%' || (c == '/' && !encodeSlash)
  {
    if s != "" {
      EncodedAlphabet(s[1..], encodeSlash);
      HexDigit(s[0] as int / 16);
      HexDigit(s[0] as int % 16);
    }
  }

  // ---- the canonical query ----

  type Query = map<string, seq<string>>

  datatype Pair = Pair(key: string, value: string)

  predicate AllBytes(q: Query) {
    forall k :: k in q ==> Bytes(k) && forall v :: v in q[k] ==> Bytes(v)
  }

  lemma {:induction false} LeastExists(s: set<string>) returns (k: string)
    requires s != {}
    ensures k in s && forall m :: m in s ==> Le(k, m)
    decreases s
  {
    var x :| x in s;
    var rest := s - {x};
    assert forall m :: m in s ==> m == x || m in rest;
    Reflexive(x);
    k := x;
    if rest != {} {
      var r := LeastExists(rest);
      Total(x, r);
      if Le(x, r) {
        forall m | m in s ensures Le(x, m) { if m != x { Transitive(x, r, m); } }
      } else {
        k := r;
      }
    }
  }

  ghost predicate IsLeast(s: set<string>, k: string) {
    k in s && forall m :: m in s ==> Le(k, m)
  }

  lemma {:induction false} SomeLeast(s: set<string>)
    requires s != {}
    ensures exists k :: IsLeast(s, k)
  {
    var k := LeastExists(s);
    assert IsLeast(s, k);
  }

  /** The members of a set in byte order. */
  ghost function InOrder(s: set<string>): seq<string>
    decreases s
  {
    if s == {} then []
    else
      SomeLeast(s);
      var k :| IsLeast(s, k);
      [k] + InOrder(s - {k})
  }

  lemma {:induction false} InOrderIs(s: set<string>)
    ensures Sorted(InOrder(s)) && Distinct(InOrder(s)) && forall k :: k in InOrder(s) <==> k in s
    decreases s
  {
    if s != {} {
      var k, rest := InOrder(s)[0], InOrder(s)[1..];
      assert IsLeast(s, k) && rest == InOrder(s - {k}) by { SomeLeast(s); }
      assert InOrder(s) == [k] + rest;
      InOrderIs(s - {k});
      hide InOrder, Le;
      SortedCons(k, rest);
      DistinctCons(k, rest);
    }
  }

  function PairsFor(k: string, values: seq<string>): seq<Pair> {
    if values == [] then [] else [Pair(k, values[0])] + PairsFor(k, values[1..])
  }

  /** The pairs of a query, its keys in the order of `keys` and each key's values sorted. */
  function PairsOn(q: Query, keys: seq<string>): seq<Pair>
    requires forall k :: k in keys ==> k in q
  {
    if keys == [] then [] else PairsFor(keys[0], Sort(q[keys[0]])) + PairsOn(q, keys[1..])
  }

  ghost function Pairs(q: Query): seq<Pair> {
    InOrderIs(q.Keys);
    PairsOn(q, InOrder(q.Keys))
  }

  predicate ByteyPair(p: Pair) {
    Bytes(p.key) && Bytes(p.value)
  }

  function Part(p: Pair): string
    requires ByteyPair(p)
  {
    UriEncode(p.key, true) + "=" + UriEncode(p.value, true)
  }

  function JoinPairs(pairs: seq<Pair>): string
    requires forall p :: p in pairs ==> ByteyPair(p)
  {
    if pairs == [] then ""
    else if |pairs| == 1 then Part(pairs[0])
    else Part(pairs[0]) + "&" + JoinPairs(pairs[1..])
  }

  lemma {:induction false} PairsForBytes(k: string, values: seq<string>)
    requires Bytes(k) && forall v :: v in values ==> Bytes(v)
    ensures forall p :: p in PairsFor(k, values) ==> ByteyPair(p)
  {
    if values != [] { PairsForBytes(k, values[1..]); }
  }

  lemma {:induction false} SortedMembers(s: seq<string>)
    ensures forall v :: v in Sort(s) <==> v in s
  {
    SortSorts(s);
    forall v ensures v in Sort(s) <==> v in s {
      assert v in Sort(s) <==> v in multiset(Sort(s));
    }
  }

  lemma {:induction false} PairsOnBytes(q: Query, keys: seq<string>)
    requires AllBytes(q) && forall k :: k in keys ==> k in q
    ensures forall p :: p in PairsOn(q, keys) ==> ByteyPair(p)
  {
    if keys != [] {
      var k := keys[0];
      SortedMembers(q[k]);
      PairsForBytes(k, Sort(q[k]));
      PairsOnBytes(q, keys[1..]);
    }
  }

  ghost function Canonical(q: Query): string
    requires AllBytes(q)
  {
    InOrderIs(q.Keys);
    PairsOnBytes(q, InOrder(q.Keys));
    JoinPairs(Pairs(q))
  }

  // ---- how the string is put together ----

  lemma {:induction false} JoinSnoc(pairs: seq<Pair>, p: Pair)
    requires ByteyPair(p) && forall o :: o in pairs ==> ByteyPair(o)
    ensures JoinPairs(pairs + [p]) == if pairs == [] then Part(p) else JoinPairs(pairs) + ("&" + Part(p))
  {
    hide Part, ByteyPair;
    var more, rest := pairs + [p], if pairs == [] then [] else pairs[1..];
    if pairs == [] {
      assert more == [p];
    } else {
      assert more[0] == pairs[0] && more[1..] == rest + [p];
      JoinSnoc(rest, p);
      if rest != [] { Regroup(Part(pairs[0]) + "&", JoinPairs(rest), "&" + Part(p)); }
      if rest == [] { Regroup(Part(pairs[0]), "&", Part(p)); }
    }
  }

  lemma {:induction false} Regroup(a: string, b: string, c: string)
    ensures a + b + c == a + (b + c)
  {
  }

  /** Key and value are encoded whole, slashes too, and parted by the two separators. */
  lemma {:induction false} JoinedMore(pairs: seq<Pair>, p: Pair)
    requires ByteyPair(p) && forall o :: o in pairs ==> ByteyPair(o)
    ensures JoinPairs([]) == ""
    ensures JoinPairs(pairs + [p]) ==
              JoinPairs(pairs) + ((if pairs == [] then "" else "&") +
                                  (UriEncode(p.key, true) + "=" + UriEncode(p.value, true)))
  {
    JoinSnoc(pairs, p);
    hide UriEncode, ByteyPair;
    var part := UriEncode(p.key, true) + "=" + UriEncode(p.value, true);
    assert Part(p) == part;
    assert "" + ("" + part) == part;
  }

  /** The pairs of a query are in order, by key and then by value. */
  predicate PairsSorted(pairs: seq<Pair>) {
    forall i, j :: 0 <= i < j < |pairs| ==>
      if pairs[i].key == pairs[j].key then Le(pairs[i].value, pairs[j].value) else Le(pairs[i].key, pairs[j].key)
  }

  lemma {:induction false} PairsForAre(k: string, values: seq<string>)
    ensures |PairsFor(k, values)| == |values|
    ensures forall i :: 0 <= i < |values| ==> PairsFor(k, values)[i] == Pair(k, values[i])
  {
    if values != [] { PairsForAre(k, values[1..]); }
  }

  lemma {:induction false} PairsOnKeys(q: Query, keys: seq<string>)
    requires forall k :: k in keys ==> k in q
    ensures forall p :: p in PairsOn(q, keys) ==> p.key in keys
  {
    if keys != [] {
      PairsForAre(keys[0], Sort(q[keys[0]]));
      PairsOnKeys(q, keys[1..]);
    }
  }

  lemma {:induction false} PairsOnSorted(q: Query, keys: seq<string>)
    requires Sorted(keys) && Distinct(keys) && forall k :: k in keys ==> k in q
    ensures PairsSorted(PairsOn(q, keys))
  {
    if keys != [] {
      var k, rest := keys[0], keys[1..];
      assert keys == [k] + rest;
      LeastThenRest(k, rest);
      PairsOnSorted(q, rest);
      PairsOnKeys(q, rest);
      PairsForAre(k, Sort(q[k]));
      SortSorts(q[k]);
      hide Sort, PairsFor, PairsOn, Le;
      SortedTogether(k, Sort(q[k]), PairsFor(k, Sort(q[k])), PairsOn(q, rest));
    }
  }

  lemma {:induction false} SortedTogether(k: string, values: seq<string>, a: seq<Pair>, b: seq<Pair>)
    requires Sorted(values) && |a| == |values| && forall i :: 0 <= i < |a| ==> a[i] == Pair(k, values[i])
    requires PairsSorted(b) && forall p :: p in b ==> Le(k, p.key) && p.key != k
    ensures PairsSorted(a + b)
  {
    hide Le;
    var all := a + b;
    forall i, j | 0 <= i < j < |all|
      ensures if all[i].key == all[j].key then Le(all[i].value, all[j].value) else Le(all[i].key, all[j].key)
    {
      if j >= |a| { assert all[j] in b; }
    }
  }

  /** What the canonical string lists, read off its own pairs: every value of every key as
      often as the query has it, in order. */
  lemma {:induction false} CanonicalLists(q: Query)
    requires AllBytes(q)
    ensures PairsSorted(ReadQuery(Canonical(q)))
    ensures forall k, v :: multiset(ReadQuery(Canonical(q)))[Pair(k, v)] == if k in q then multiset(q[k])[v] else 0
  {
    hide ReadQuery, JoinPairs, PairsOn, InOrder;
    InOrderIs(q.Keys);
    PairsOnBytes(q, InOrder(q.Keys));
    ReadsBack(Pairs(q));
    PairsOnSorted(q, InOrder(q.Keys));
    forall k, v ensures multiset(Pairs(q))[Pair(k, v)] == if k in q then multiset(q[k])[v] else 0 {
      CountOn(q, InOrder(q.Keys), Pair(k, v));
    }
  }

  // ---- the code ----

  /** strings.Join with an ampersand. */
  method JoinParts(pairs: seq<Pair>) returns (s: string)
    requires forall p :: p in pairs ==> ByteyPair(p)
    ensures s == JoinPairs(pairs)
  {
    s := "";
    var i := |pairs|;
    while i > 0
      invariant 0 <= i <= |pairs| && s == JoinPairs(pairs[i..])
    {
      i := i - 1;
      assert pairs[i..][1..] == pairs[i + 1..] && pairs[i..][0] == pairs[i];
      assert pairs[i] in pairs;
      var key := UriEncoded(pairs[i].key, true);
      var value := UriEncoded(pairs[i].value, true);
      s := if i == |pairs| - 1 then key + "=" + value else key + "=" + value + "&" + s;
    }
    assert pairs[0..] == pairs;
  }

  /** canonicalQuery. */
  method CanonicalQuery(q: Query) returns (s: string)
    requires AllBytes(q)
    ensures s == Canonical(q)
  {
    if |q| == 0 {
      assert q.Keys == {};
      return "";
    }
    hide Sort, JoinPairs, InOrder, PairsFor;
    var keys := SortKeys(q);
    InOrderIs(q.Keys);
    var parts: seq<Pair> := [];
    for i := 0 to |keys|
      invariant parts + PairsOn(q, keys[i..]) == PairsOn(q, keys)
    {
      PairsOnStep(q, keys, i, parts);
      var more := ValuePairs(keys[i], Sort(q[keys[i]]));
      parts := parts + more;
    }
    assert keys[|keys|..] == [];
    assert parts == Pairs(q);
    PairsOnBytes(q, keys);
    s := JoinParts(parts);
  }

  lemma {:induction false} PairsOnStep(q: Query, keys: seq<string>, i: nat, parts: seq<Pair>)
    requires i < |keys| && forall k :: k in keys ==> k in q
    ensures parts + PairsOn(q, keys[i..]) == parts + PairsFor(keys[i], Sort(q[keys[i]])) + PairsOn(q, keys[i + 1..])
  {
    assert keys[i..][0] == keys[i] && keys[i..][1..] == keys[i + 1..];
  }

  method ValuePairs(k: string, values: seq<string>) returns (pairs: seq<Pair>)
    ensures pairs == PairsFor(k, values)
  {
    pairs := [];
    for i := 0 to |values|
      invariant pairs + PairsFor(k, values[i..]) == PairsFor(k, values)
    {
      assert values[i..][1..] == values[i + 1..];
      assert pairs + ([Pair(k, values[i])] + PairsFor(k, values[i + 1..])) == (pairs + [Pair(k, values[i])]) +
          PairsFor(k, values[i + 1..]);
      pairs := pairs + [Pair(k, values[i])];
    }
    assert values[|values|..] == [];
  }

  /** The map's keys, met in any order and then sorted. */
  method SortKeys(q: Query) returns (keys: seq<string>)
    ensures keys == InOrder(q.Keys)
  {
    var met: seq<string> := [];
    var left := q.Keys;
    while left != {}
      invariant left <= q.Keys && Distinct(met) && forall k :: k in met <==> k in q.Keys && k !in left
      decreases left
    {
      var k :| k in left;
      left := left - {k};
      met := met + [k];
    }
    keys := Sort(met);
    SortSorts(met);
    InOrderIs(q.Keys);
    SameMultiset(met, InOrder(q.Keys));
    SortedIsUnique(keys, InOrder(q.Keys));
  }

  lemma {:induction false} SameMultiset(a: seq<string>, b: seq<string>)
    requires Distinct(a) && Distinct(b) && forall k :: k in a <==> k in b
    ensures multiset(a) == multiset(b)
  {
    forall k: string ensures multiset(a)[k] == multiset(b)[k] {
      DistinctCount(a, k);
      DistinctCount(b, k);
    }
  }

  // ---- reading a canonical query back ----

  function Before(s: string, c: char): string {
    if s == "" || s[0] == c then "" else [s[0]] + Before(s[1..], c)
  }

  function After(s: string, c: char): string {
    if s == "" then "" else if s[0] == c then s[1..] else After(s[1..], c)
  }

  lemma {:induction false} CutAt(a: string, c: char, b: string)
    requires c !in a
    ensures Before(a + [c] + b, c) == a && After(a + [c] + b, c) == b
  {
    var s := a + [c] + b;
    if a == "" {
      assert s[1..] == b;
    } else {
      assert s[1..] == a[1..] + [c] + b;
      CutAt(a[1..], c, b);
    }
  }

  function ReadPart(s: string): Pair {
    Pair(UriDecode(Before(s, '=')), UriDecode(After(s, '=')))
  }

  function ReadQuery(s: string): seq<Pair>
    decreases |s|
  {
    if s == "" then []
    else if '&' !in s then [ReadPart(s)]
    else
      AfterIsShorter(s, '&');
      [ReadPart(Before(s, '&'))] + ReadQuery(After(s, '&'))
  }

  lemma {:induction false} AfterIsShorter(s: string, c: char)
    requires s != ""
    ensures |After(s, c)| < |s|
  {
    if s[0] != c && |s| > 1 { AfterIsShorter(s[1..], c); }
  }

  lemma {:induction false} NoSeparators(s: string)
    requires Bytes(s)
    ensures '=' !in UriEncode(s, true) && '&' !in UriEncode(s, true)
  {
    EncodedAlphabet(s, true);
  }

  lemma {:induction false} ReadsPart(p: Pair)
    requires ByteyPair(p)
    ensures ReadPart(Part(p)) == p && '&' !in Part(p) && Part(p) != ""
  {
    NoSeparators(p.key);
    NoSeparators(p.value);
    UriRoundTrip(p.key, true);
    UriRoundTrip(p.value, true);
    hide UriEncode, UriDecode, Before, After;
    CutAt(UriEncode(p.key, true), '=', UriEncode(p.value, true));
  }

  /** The canonical query can be read back: its pairs and their order are all in it. */
  lemma {:induction false} ReadsBack(pairs: seq<Pair>)
    requires forall p :: p in pairs ==> ByteyPair(p)
    ensures ReadQuery(JoinPairs(pairs)) == pairs
  {
    if pairs != [] {
      hide Part, ReadPart, ReadQuery;
      ReadsPart(pairs[0]);
      if |pairs| > 1 {
        ReadsBack(pairs[1..]);
        ReadsFirst(Part(pairs[0]), JoinPairs(pairs[1..]));
      } else {
        ReadsOnly(Part(pairs[0]));
      }
    } else {
      ReadsOnly("");
    }
  }

  lemma {:induction false} ReadsOnly(part: string)
    requires '&' !in part
    ensures ReadQuery(part) == if part == "" then [] else [ReadPart(part)]
  {
  }

  lemma {:induction false} ReadsFirst(part: string, rest: string)
    requires '&' !in part
    ensures ReadQuery(part + "&" + rest) == [ReadPart(part)] + ReadQuery(rest)
  {
    CutAt(part, '&', rest);
    assert (part + "&" + rest)[|part|] == '&';
  }

  // ---- equal exactly when the queries are ----

  function Values(q: Query, k: string): multiset<string> {
    if k in q then multiset(q[k]) else multiset{}
  }

  lemma {:induction false} CountFor(k: string, values: seq<string>, p: Pair)
    ensures multiset(PairsFor(k, values))[p] == if p.key == k then multiset(values)[p.value] else 0
  {
    if values != [] {
      CountFor(k, values[1..], p);
      assert values == [values[0]] + values[1..];
      assert multiset(values) == multiset{values[0]} + multiset(values[1..]);
    }
  }

  lemma {:induction false} CountOn(q: Query, keys: seq<string>, p: Pair)
    requires Distinct(keys) && forall k :: k in keys ==> k in q
    ensures multiset(PairsOn(q, keys))[p] == if p.key in keys then multiset(q[p.key])[p.value] else 0
  {
    if keys != [] {
      var k := keys[0];
      CountFor(k, Sort(q[k]), p);
      SortSorts(q[k]);
      CountOn(q, keys[1..], p);
      assert keys == [k] + keys[1..];
    }
  }

  function Live(q: Query, keys: seq<string>): seq<string>
    requires forall k :: k in keys ==> k in q
  {
    if keys == [] then []
    else (if q[keys[0]] == [] then [] else [keys[0]]) + Live(q, keys[1..])
  }

  lemma {:induction false} LiveIs(q: Query, keys: seq<string>)
    requires Sorted(keys) && Distinct(keys) && forall k :: k in keys ==> k in q
    ensures Sorted(Live(q, keys)) && Distinct(Live(q, keys))
            && forall k :: k in Live(q, keys) <==> k in keys && q[k] != []
  {
    if keys != [] {
      var k, rest := keys[0], keys[1..];
      assert keys == [k] + rest;
      LiveIs(q, rest);
      LeastThenRest(k, rest);
      var live := Live(q, rest);
      assert Live(q, keys) == if q[k] == [] then live else [k] + live;
      hide Live, Le;
      SortedCons(k, live);
      DistinctCons(k, live);
    }
  }

  lemma {:induction false} LeastThenRest(k: string, rest: seq<string>)
    requires Sorted([k] + rest) && Distinct([k] + rest)
    ensures forall m :: m in rest ==> Le(k, m) && m != k
  {
    var s := [k] + rest;
    forall m | m in rest ensures Le(k, m) && m != k {
      var i :| 0 <= i < |rest| && rest[i] == m;
      assert s[0] == k && s[i + 1] == m;
    }
  }

  lemma {:induction false} DistinctCons(k: string, s: seq<string>)
    requires Distinct(s) && k !in s
    ensures Distinct([k] + s)
  {
  }

  lemma {:induction false} LiveKeys(q: Query, keys: seq<string>)
    requires forall k :: k in keys ==> k in q
    ensures forall k :: k in Live(q, keys) ==> k in q
  {
    if keys != [] { LiveKeys(q, keys[1..]); }
  }

  lemma {:induction false} LivePairs(q: Query, keys: seq<string>)
    requires forall k :: k in keys ==> k in q
    ensures forall k :: k in Live(q, keys) ==> k in q
    ensures PairsOn(q, keys) == PairsOn(q, Live(q, keys))
  {
    LiveKeys(q, keys);
    if keys != [] {
      hide Sort;
      var k, rest := keys[0], Live(q, keys[1..]);
      LiveKeys(q, keys[1..]);
      LivePairs(q, keys[1..]);
      if q[k] == [] {
        NoValues(k);
        assert Live(q, keys) == rest;
      } else {
        PairsCons(q, k, rest);
      }
    }
  }

  lemma {:induction false} NoValues(k: string)
    ensures PairsFor(k, Sort([])) == []
  {
  }

  lemma {:induction false} PairsCons(q: Query, k: string, rest: seq<string>)
    requires k in q && forall m :: m in rest ==> m in q
    ensures PairsOn(q, [k] + rest) == PairsFor(k, Sort(q[k])) + PairsOn(q, rest)
  {
    assert ([k] + rest)[1..] == rest;
  }

  lemma {:induction false} SamePairs(q: Query, r: Query, keys: seq<string>)
    requires forall k :: k in keys ==> k in q && k in r && multiset(q[k]) == multiset(r[k])
    ensures PairsOn(q, keys) == PairsOn(r, keys)
  {
    if keys != [] {
      SamePairs(q, r, keys[1..]);
      SortSorts(q[keys[0]]);
      SortSorts(r[keys[0]]);
      SortedIsUnique(Sort(q[keys[0]]), Sort(r[keys[0]]));
    }
  }

  /** Two queries have one canonical string exactly when every key has the same values,
      however ordered, and keys without values aside. */
  lemma {:induction false} CanonicalIff(q: Query, r: Query)
    requires AllBytes(q) && AllBytes(r)
    ensures Canonical(q) == Canonical(r) <==> forall k :: Values(q, k) == Values(r, k)
  {
    var kq, kr := InOrder(q.Keys), InOrder(r.Keys);
    InOrderIs(q.Keys);
    InOrderIs(r.Keys);
    if Canonical(q) == Canonical(r) {
      PairsOnBytes(q, kq);
      PairsOnBytes(r, kr);
      ReadsBack(Pairs(q));
      ReadsBack(Pairs(r));
      forall k ensures Values(q, k) == Values(r, k) {
        forall v: string ensures Values(q, k)[v] == Values(r, k)[v] {
          CountOn(q, kq, Pair(k, v));
          CountOn(r, kr, Pair(k, v));
        }
      }
    }
    if forall k :: Values(q, k) == Values(r, k) {
      SameValuesSamePairs(q, r);
    }
  }

  lemma {:induction false} SameValuesSamePairs(q: Query, r: Query)
    requires forall k :: Values(q, k) == Values(r, k)
    ensures Pairs(q) == Pairs(r)
  {
    var kq, kr := InOrder(q.Keys), InOrder(r.Keys);
    InOrderIs(q.Keys);
    InOrderIs(r.Keys);
    LiveIs(q, kq);
    LiveIs(r, kr);
    LivePairs(q, kq);
    LivePairs(r, kr);
    var lq, lr := Live(q, kq), Live(r, kr);
    forall k ensures k in lq <==> k in lr {
      assert Values(q, k) == Values(r, k);
      EmptyIff(q, k);
      EmptyIff(r, k);
    }
    SameMultiset(lq, lr);
    SortedIsUnique(lq, lr);
    forall k | k in lq ensures multiset(q[k]) == multiset(r[k]) {
      assert Values(q, k) == Values(r, k);
    }
    SamePairs(q, r, lq);
  }

  lemma {:induction false} EmptyIff(q: Query, k: string)
    ensures Values(q, k) == multiset{} <==> k !in q || q[k] == []
  {
    if k in q && q[k] != [] { assert q[k][0] in multiset(q[k]); }
  }
}
