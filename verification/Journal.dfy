/** agent/internal/apply/journal.go: the crash-safe record of what was applied. */
module Journal {
  import opened Dsd
  import opened Lex
  import opened Wrappers

  datatype OpState = Applied | Failed | Skipped

  datatype OpResult = OpResult(version: Version, opId: string, state: OpState, err: string)

  datatype Slot = Slot(version: Version, opId: string)

  /** What the two buckets hold: one result per slot and the two watermarks. */
  datatype View = View(rows: map<Slot, OpResult>, applied: Version, reported: Version)

  // ---- keys: fmt.Sprintf("%020d:%s", version, opID) ----

  function Digit(d: nat): char
    requires d < 10
  {
    ['0', '1', '2', '3', '4', '5', '6', '7', '8', '9'][d]
  }

  /** The last `width` decimal digits of `n`. */
  function Digits(n: nat, width: nat): (s: string)
    ensures |s| == width
    ensures forall i :: 0 <= i < |s| ==> '0' <= s[i] <= '9'
  {
    if width == 0 then [] else Digits(n / 10, width - 1) + [Digit(n % 10)]
  }

  function Pow10(k: nat): nat {
    if k == 0 then 1 else 10 * Pow10(k - 1)
  }

  /** `%020d`: zero-padded to 20 characters, the sign being one of them. */
  function Pad20(v: Version): (s: string)
    ensures |s| == 20
  {
    if v < 0 then "-" + Digits(0 - v as int, 19) else Digits(v, 20)
  }

  function Prefix(v: Version): string {
    Pad20(v) + ":"
  }

  function Key(slot: Slot): string {
    Prefix(slot.version) + slot.opId
  }

  lemma {:induction false} DigitsInjective(m: nat, n: nat, width: nat)
    requires m < Pow10(width) && n < Pow10(width) && Digits(m, width) == Digits(n, width)
    ensures m == n
  {
    if width != 0 {
      var a, b := Digits(m / 10, width - 1), Digits(n / 10, width - 1);
      assert a == (a + [Digit(m % 10)])[..width - 1] && b == (b + [Digit(n % 10)])[..width - 1];
      assert Digit(m % 10) == (a + [Digit(m % 10)])[width - 1] == Digit(n % 10);
      DigitsInjective(m / 10, n / 10, width - 1);
    }
  }

  lemma {:induction false} Thousands(k: nat)
    ensures Pow10(k + 3) == 1000 * Pow10(k)
  {
    assert Pow10(k + 2) == 10 * Pow10(k + 1);
  }

  lemma {:induction false} Int64Fits()
    ensures 0x8000_0000_0000_0000 < Pow10(19) < Pow10(20)
  {
    Thousands(1); Thousands(4); Thousands(7); Thousands(10); Thousands(13); Thousands(16);
  }

  lemma {:induction false} Pad20Injective(v: Version, w: Version)
    requires Pad20(v) == Pad20(w)
    ensures v == w
  {
    hide Digits, Pow10;
    Int64Fits();
    if v < 0 {
      assert Pad20(v)[0] == '-' && Pad20(w)[0] == '-';
      assert Pad20(v)[1..] == Digits(0 - v as int, 19) && Pad20(w)[1..] == Digits(0 - w as int, 19);
      DigitsInjective(0 - v as int, 0 - w as int, 19);
    } else {
      assert Pad20(v)[0] != '-';
      DigitsInjective(v, w, 20);
    }
  }

  /** A key starts with a version's prefix exactly when it is a key of that version. */
  lemma {:induction false} KeyOfVersion(v: Version, slot: Slot)
    ensures Prefix(v) <= Key(slot) <==> slot.version == v
  {
    if Prefix(v) <= Key(slot) {
      assert Pad20(v) == Key(slot)[..20] == Pad20(slot.version);
      Pad20Injective(v, slot.version);
    }
  }

  /** No two slots share a key, whatever the op ids hold. */
  lemma {:induction false} KeyInjective(a: Slot, b: Slot)
    requires Key(a) == Key(b)
    ensures a == b
  {
    KeyOfVersion(a.version, b);
    assert a.opId == Key(a)[21..] && b.opId == Key(b)[21..];
  }

  // ---- the journal bucket, kept in key order ----

  datatype Row = Row(key: string, value: OpResult)

  predicate InOrder(rows: seq<Row>) {
    forall i, j :: 0 <= i < j < |rows| ==> Lt(rows[i].key, rows[j].key)
  }

  function SlotOf(res: OpResult): Slot {
    Slot(res.version, res.opId)
  }

  /** The bucket `rows` holds exactly the table `t`, each result under its own key. */
  ghost predicate Stores(rows: seq<Row>, t: map<Slot, OpResult>) {
    && (forall i :: 0 <= i < |rows| ==> rows[i].key == Key(SlotOf(rows[i].value)))
    && (forall i :: 0 <= i < |rows| ==> SlotOf(rows[i].value) in t && t[SlotOf(rows[i].value)] == rows[i].value)
    && (forall s :: s in t ==> exists i :: 0 <= i < |rows| && SlotOf(rows[i].value) == s)
  }

  /** Every result stands in its own slot. */
  ghost predicate Keyed(t: map<Slot, OpResult>) {
    forall s :: s in t ==> SlotOf(t[s]) == s
  }

  lemma {:induction false} StoresKeyed(rows: seq<Row>, t: map<Slot, OpResult>)
    requires Stores(rows, t)
    ensures Keyed(t)
  {
    hide Key;
  }

  /** The results `t` holds for one version, by op id. */
  function OfVersion(t: map<Slot, OpResult>, v: Version): (out: map<string, OpResult>)
    ensures forall id :: id in out <==> Slot(v, id) in t
    ensures forall id :: id in out ==> out[id] == t[Slot(v, id)]
  {
    map s | s in t && s.version == v :: s.opId := t[s]
  }

  /** The bucket after `res` goes in at position `i`, over a row with its key. */
  function Put(rows: seq<Row>, res: OpResult, i: nat): seq<Row>
    requires i <= |rows|
  {
    var k := Key(SlotOf(res));
    rows[..i] + [Row(k, res)] + if i < |rows| && rows[i].key == k then rows[i + 1..] else rows[i..]
  }

  /** `i` is where the first key not below `k` stands. */
  predicate Lands(rows: seq<Row>, k: string, i: nat) {
    && i <= |rows|
    && (forall j :: 0 <= j < i ==> Lt(rows[j].key, k))
    && (i < |rows| ==> Le(k, rows[i].key))
  }

  lemma {:induction false} LtTransitive(a: string, b: string, c: string)
    requires Le(a, b) && Le(b, c) && (a != b || b != c)
    ensures Lt(a, c)
  {
    Transitive(a, b, c);
    if a == c { Antisymmetric(a, b); }
  }

  lemma {:induction false} LandsAbove(rows: seq<Row>, k: string, i: nat, j: nat)
    requires InOrder(rows) && Lands(rows, k, i) && i <= j < |rows|
    ensures Le(k, rows[j].key)
    ensures k == rows[j].key ==> j == i
  {
    if i < j { LtTransitive(k, rows[i].key, rows[j].key); }
  }

  lemma {:induction false} OnlyThere(rows: seq<Row>, k: string, i: nat, j: nat)
    requires InOrder(rows) && Lands(rows, k, i) && j < |rows| && rows[j].key == k
    ensures j == i
  {
    if i <= j { LandsAbove(rows, k, i, j); }
  }

  lemma {:induction false} PutInOrder(rows: seq<Row>, res: OpResult, i: nat)
    requires InOrder(rows) && Lands(rows, Key(SlotOf(res)), i)
    ensures InOrder(Put(rows, res, i))
  {
    hide Key, Le;
    var k, rows' := Key(SlotOf(res)), Put(rows, res, i);
    var gap := if i < |rows| && rows[i].key == k then 0 else 1;
    forall a, b | 0 <= a < b < |rows'| ensures Lt(rows'[a].key, rows'[b].key) {
      if b < i {
      } else if b == i {
      } else {
        assert rows'[b] == rows[b - gap];
        LandsAbove(rows, k, i, b - gap);
        if a < i { LtTransitive(rows'[a].key, k, rows'[b].key); }
        if a > i { assert rows'[a] == rows[a - gap]; }
      }
    }
  }

  lemma {:induction false} PutRows(rows: seq<Row>, res: OpResult, i: nat)
    requires i <= |rows|
    ensures var k, rows' := Key(SlotOf(res)), Put(rows, res, i);
            var gap := if i < |rows| && rows[i].key == k then 0 else 1;
            && |rows'| == |rows| + gap
            && (forall j :: 0 <= j < i ==> rows'[j] == rows[j])
            && rows'[i] == Row(k, res)
            && (forall j :: i < j < |rows'| ==> rows'[j] == rows[j - gap])
            && (forall j :: i <= j < |rows| && j + gap != i ==> rows'[j + gap] == rows[j])
  {
    hide Key;
  }

  /** Each row after a put is the new one, or an old one with another key. */
  lemma {:induction false} PutFrom(rows: seq<Row>, res: OpResult, i: nat, j: nat) returns (m: nat)
    requires InOrder(rows) && Lands(rows, Key(SlotOf(res)), i) && j < |Put(rows, res, i)|
    ensures if j == i then Put(rows, res, i)[j] == Row(Key(SlotOf(res)), res)
            else m < |rows| && Put(rows, res, i)[j] == rows[m] && rows[m].key != Key(SlotOf(res))
  {
    assert i <= |rows|;
    hide Key, Le, Put, InOrder, Lands, Lt, Prefix, Pad20, SlotOf;
    var k := Key(SlotOf(res));
    PutRows(rows, res, i);
    m := if j < i || (i < |rows| && rows[i].key == k) || j == 0 then j else j - 1;
    if j != i && rows[m].key == k { OnlyThere(rows, k, i, m); }
  }

  lemma {:induction false} PutFits(rows: seq<Row>, t: map<Slot, OpResult>, res: OpResult, i: nat, j: nat)
    requires InOrder(rows) && Stores(rows, t) && Lands(rows, Key(SlotOf(res)), i) && j < |Put(rows, res, i)|
    ensures var row := Put(rows, res, i)[j];
            && row.key == Key(SlotOf(row.value))
            && SlotOf(row.value) in t[SlotOf(res) := res] && t[SlotOf(res) := res][SlotOf(row.value)] == row.value
  {
    assert i <= |rows|;
    hide Key, Le, Put, InOrder, Lands, Stores, Lt, Prefix, Pad20, SlotOf;
    var m := PutFrom(rows, res, i, j);
    if j != i {
      StoredAt(rows, t, m);
      StaysStored(t, res, rows[m].value);
    }
  }

  lemma {:induction false} StaysStored(t: map<Slot, OpResult>, res: OpResult, old_: OpResult)
    requires SlotOf(old_) in t && t[SlotOf(old_)] == old_ && SlotOf(old_) != SlotOf(res)
    ensures SlotOf(old_) in t[SlotOf(res) := res] && t[SlotOf(res) := res][SlotOf(old_)] == old_
  {
  }

  lemma {:induction false} StoredAt(rows: seq<Row>, t: map<Slot, OpResult>, m: nat)
    requires Stores(rows, t) && m < |rows|
    ensures rows[m].key == Key(SlotOf(rows[m].value))
    ensures SlotOf(rows[m].value) in t && t[SlotOf(rows[m].value)] == rows[m].value
  {
  }

  lemma {:induction false} RowOf(rows: seq<Row>, t: map<Slot, OpResult>, s: Slot) returns (m: nat)
    requires Stores(rows, t) && s in t
    ensures m < |rows| && SlotOf(rows[m].value) == s && rows[m].key == Key(s)
  {
    m :| m < |rows| && SlotOf(rows[m].value) == s;
  }

  lemma {:induction false} PutReaches(rows: seq<Row>, t: map<Slot, OpResult>, res: OpResult, i: nat,
                                      s: Slot) returns (m: nat)
    requires Stores(rows, t) && i <= |rows| && s in t[SlotOf(res) := res]
    ensures m < |Put(rows, res, i)| && SlotOf(Put(rows, res, i)[m].value) == s
  {
    hide Stores, Key, Put;
    PutRows(rows, res, i);
    if s == SlotOf(res) {
      m := i;
    } else {
      m := RowOf(rows, t, s);
      var hit := i < |rows| && rows[i].key == Key(SlotOf(res));
      if hit && m == i { KeyInjective(s, SlotOf(res)); }
      m := if m < i || hit then m else m + 1;
    }
  }

  lemma {:induction false} PutStores(rows: seq<Row>, t: map<Slot, OpResult>, res: OpResult, i: nat)
    requires InOrder(rows) && Stores(rows, t) && Lands(rows, Key(SlotOf(res)), i)
    ensures Stores(Put(rows, res, i), t[SlotOf(res) := res])
  {
    var rows', t' := Put(rows, res, i), t[SlotOf(res) := res];
    forall j: nat | j < |rows'|
      ensures rows'[j].key == Key(SlotOf(rows'[j].value))
      ensures SlotOf(rows'[j].value) in t' && t'[SlotOf(rows'[j].value)] == rows'[j].value
    {
      PutFits(rows, t, res, i, j);
    }
    forall s | s in t' ensures exists m :: 0 <= m < |rows'| && SlotOf(rows'[m].value) == s {
      var m := PutReaches(rows, t, res, i, s);
    }
  }

  lemma {:induction false} ScanCovers(rows: seq<Row>, v: Version, start: nat, end: nat, j: nat)
    requires InOrder(rows) && Lands(rows, Prefix(v), start) && start <= end <= |rows| && j < |rows|
    requires forall m :: start <= m < end ==> Prefix(v) <= rows[m].key
    requires end < |rows| ==> !(Prefix(v) <= rows[end].key)
    ensures start <= j < end <==> Prefix(v) <= rows[j].key
  {
    hide Prefix, Le;
    var p := Prefix(v);
    if j < start && p <= rows[j].key {
      PrefixIsLe(p, rows[j].key);
      Antisymmetric(p, rows[j].key);
    }
    if end <= j {
      LandsAbove(rows, p, start, end);
      if end < j { PrefixRun(p, rows[end].key, rows[j].key); }
    }
  }

  /** The map a scan of the rows from `start` to `end` fills. */
  function Collect(rows: seq<Row>, start: nat, end: nat): map<string, OpResult>
    requires start <= end <= |rows|
  {
    if start == end then map[] else
      var res := rows[end - 1].value;
      Collect(rows, start, end - 1)[res.opId := res]
  }

  lemma {:induction false} CollectAgrees(rows: seq<Row>, t: map<Slot, OpResult>, v: Version, start: nat, end: nat)
    requires Stores(rows, t) && start <= end <= |rows|
    requires forall m :: start <= m < end ==> rows[m].value.version == v
    ensures forall id :: id in Collect(rows, start, end) ==>
            Slot(v, id) in t && Collect(rows, start, end)[id] == t[Slot(v, id)]
    ensures forall m :: start <= m < end ==> rows[m].value.opId in Collect(rows, start, end)
  {
    hide Key;
    if start != end {
      CollectAgrees(rows, t, v, start, end - 1);
      assert SlotOf(rows[end - 1].value) == Slot(v, rows[end - 1].value.opId);
    }
  }

  /** Reading on from the prefix while keys carry it meets exactly the version's rows. */
  lemma {:induction false} ScanIsExact(rows: seq<Row>, t: map<Slot, OpResult>, v: Version, start: nat, end: nat)
    requires InOrder(rows) && Stores(rows, t) && Lands(rows, Prefix(v), start) && start <= end <= |rows|
    requires forall m :: start <= m < end ==> Prefix(v) <= rows[m].key
    requires end < |rows| ==> !(Prefix(v) <= rows[end].key)
    ensures Collect(rows, start, end) == OfVersion(t, v)
  {
    hide Prefix, Le, Key, InOrder, Lands, Collect;
    forall j: nat | j < |rows| ensures start <= j < end <==> rows[j].value.version == v {
      KeyOfVersion(v, SlotOf(rows[j].value));
      ScanCovers(rows, v, start, end, j);
    }
    CollectAgrees(rows, t, v, start, end);
    forall id | Slot(v, id) in t ensures id in Collect(rows, start, end) {
      var j: nat :| j < |rows| && SlotOf(rows[j].value) == Slot(v, id);
      assert rows[j].value.opId == id;
    }
  }

  /** The cursor loop: on from `start` for as long as the keys carry the prefix. */
  method ScanFrom(rows: seq<Row>, prefix: string, start: nat) returns (end: nat, found: map<string, OpResult>)
    requires start <= |rows|
    ensures start <= end <= |rows| && found == Collect(rows, start, end)
    ensures forall j :: start <= j < end ==> prefix <= rows[j].key
    ensures end < |rows| ==> !(prefix <= rows[end].key)
  {
    end, found := start, map[];
    while end < |rows| && prefix <= rows[end].key
      invariant start <= end <= |rows| && found == Collect(rows, start, end)
      invariant forall j :: start <= j < end ==> prefix <= rows[j].key
    {
      found := found[rows[end].value.opId := rows[end].value];
      end := end + 1;
    }
  }

  /** The bbolt database. `script` says which of the coming transactions complete; the
      others fail and change nothing, and past its end all complete. A process that is cut
      is one whose transactions all fail from some point on. */
  class Journal {
    var rows: seq<Row>
    var lastApplied: Version
    var lastReported: Version
    var script: seq<bool>
    ghost var table: map<Slot, OpResult>

    ghost predicate Valid()
      reads this
    {
      InOrder(rows) && Stores(rows, table)
    }

    ghost function Contents(): View
      reads this
    {
      View(table, lastApplied, lastReported)
    }

    /** One transaction, going as the script says. */
    twostate predicate Spent(ok: bool)
      reads this
    {
      && ok == (old(script) == [] || old(script)[0])
      && script == if old(script) == [] then [] else old(script)[1..]
    }

    constructor (script: seq<bool>)
      ensures Valid() && Contents() == View(map[], 0, 0) && this.script == script
    {
      rows, lastApplied, lastReported, this.script, table := [], 0, 0, script, map[];
    }

    method Transact() returns (ok: bool)
      modifies this`script
      ensures Spent(ok)
    {
      if |script| == 0 { return true; }
      ok := script[0];
      script := script[1..];
    }

    method LastAppliedVersion() returns (v: Option<Version>)
      modifies this`script
      ensures Spent(v.Some?) && (v.Some? ==> v.value == lastApplied)
    {
      var done := Transact();
      if !done { return None; }
      return Some(lastApplied);
    }

    method SetLastAppliedVersion(v: Version) returns (ok: bool)
      modifies this`script, this`lastApplied
      ensures Spent(ok) && lastApplied == if ok then v else old(lastApplied)
    {
      var done := Transact();
      if !done { return false; }
      lastApplied := v;
      return true;
    }

    method LastReportedVersion() returns (v: Option<Version>)
      modifies this`script
      ensures Spent(v.Some?) && (v.Some? ==> v.value == lastReported)
    {
      var done := Transact();
      if !done { return None; }
      return Some(lastReported);
    }

    method SetLastReportedVersion(v: Version) returns (ok: bool)
      modifies this`script, this`lastReported
      ensures Spent(ok) && lastReported == if ok then v else old(lastReported)
    {
      var done := Transact();
      if !done { return false; }
      lastReported := v;
      return true;
    }

    /** The position `Cursor.Seek(k)` lands on: the first key not below `k`. */
    method Seek(k: string) returns (i: nat)
      ensures Lands(rows, k, i)
    {
      i := 0;
      while i < |rows| && !Le(k, rows[i].key)
        invariant i <= |rows|
        invariant forall j :: 0 <= j < i ==> Lt(rows[j].key, k)
      {
        Total(k, rows[i].key);
        Reflexive(k);
        i := i + 1;
      }
    }

    /** Persists one op result, replacing what its slot held. */
    method Record(res: OpResult) returns (ok: bool)
      requires Valid()
      modifies this`script, this`rows, this`table
      ensures Valid() && Spent(ok)
      ensures table == if ok then old(table)[SlotOf(res) := res] else old(table)
    {
      var done := Transact();
      if !done { return false; }
      var k := Key(SlotOf(res));
      var i := Seek(k);
      PutInOrder(rows, res, i);
      PutStores(rows, table, res, i);
      rows := Put(rows, res, i);
      table := table[SlotOf(res) := res];
      return true;
    }

    /** The result in one slot, if there is one. */
    method Result(v: Version, opId: string) returns (ok: bool, res: Option<OpResult>)
      requires Valid()
      modifies this`script
      ensures Spent(ok)
      ensures ok ==> res == if Slot(v, opId) in table then Some(table[Slot(v, opId)]) else None
    {
      var done := Transact();
      if !done { return false, None; }
      var k := Key(Slot(v, opId));
      var i := Seek(k);
      if i < |rows| && rows[i].key == k {
        KeyInjective(Slot(v, opId), SlotOf(rows[i].value));
        return true, Some(rows[i].value);
      }
      if Slot(v, opId) in table {
        var j: nat :| j < |rows| && SlotOf(rows[j].value) == Slot(v, opId);
        LandsAbove(rows, k, i, j);
        assert false;
      }
      return true, None;
    }

    /** Seek to the version's prefix and read on while keys carry it: exactly that
        version's results, however many other versions surround them. */
    method ResultsForVersion(v: Version) returns (out: Option<map<string, OpResult>>)
      requires Valid()
      modifies this`script
      ensures Spent(out.Some?)
      ensures out.Some? ==> out.value == OfVersion(table, v)
    {
      var done := Transact();
      if !done { return None; }
      var start := Seek(Prefix(v));
      var end, found := ScanFrom(rows, Prefix(v), start);
      ScanIsExact(rows, table, v, start, end);
      return Some(found);
    }
  }
}
