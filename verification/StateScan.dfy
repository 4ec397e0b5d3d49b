/** Scanning the state under a key prefix at one version (`storage/arxdb/src/utils/iterators.rs`). */
module StateScan {
  import opened Types

  /** State keys, by their rank in byte order. */
  type Key = nat
  type Value = nat

  /** One version of one key; a deleted key has no value. */
  datatype Row = Row(key: Key, version: Version, value: Option<Value>)

  /** The keys with a given prefix are an interval in byte order. */
  datatype Prefix = Prefix(lo: Key, hi: Key)
  {
    predicate Matches(k: Key) { lo <= k < hi }
  }

  /** Rows by key, newest version first. */
  predicate Sorted(rows: seq<Row>) {
    && (forall i, j :: 0 <= i < j < |rows| ==>
          (rows[i].key < rows[j].key || (rows[i].key == rows[j].key && rows[i].version > rows[j].version)))
    && forall i :: 0 <= i < |rows| ==> rows[i].version <= U64_MAX
  }

  predicate Precedes(row: Row, k: Key, v: Version) {
    row.key < k || (row.key == k && row.version > v)
  }

  /** `SchemaIterator::seek`: the first row at or after `(k, v)`. */
  function Seek(rows: seq<Row>, k: Key, v: Version): (at: nat)
    ensures at <= |rows|
    ensures forall i :: 0 <= i < at ==> Precedes(rows[i], k, v)
    ensures at < |rows| ==> !Precedes(rows[at], k, v)
  {
    SeekFrom(rows, k, v, 0)
  }

  function SeekFrom(rows: seq<Row>, k: Key, v: Version, from: nat): (at: nat)
    requires from <= |rows|
    requires forall i :: 0 <= i < from ==> Precedes(rows[i], k, v)
    ensures at <= |rows|
    ensures forall i :: 0 <= i < at ==> Precedes(rows[i], k, v)
    ensures at < |rows| ==> !Precedes(rows[at], k, v)
    decreases |rows| - from
  {
    if from == |rows| || !Precedes(rows[from], k, v) then from else SeekFrom(rows, k, v, from + 1)
  }

  /** The newest row of its key that is not newer than `version`. */
  predicate Current(rows: seq<Row>, version: Version, i: nat)
    requires i < |rows|
  {
    rows[i].version <= version && (i == 0 || rows[i - 1].key != rows[i].key || rows[i - 1].version > version)
  }

  /** Live entries from row `i` on, up to the first key without the prefix. */
  function Upcoming(rows: seq<Row>, prefix: Prefix, version: Version, i: nat): seq<(Key, Value)>
    decreases |rows| - i
  {
    if i >= |rows| || !prefix.Matches(rows[i].key) then []
    else if Current(rows, version, i) && rows[i].value.Some? then
      [(rows[i].key, rows[i].value.value)] + Upcoming(rows, prefix, version, i + 1)
    else Upcoming(rows, prefix, version, i + 1)
  }

  /** Where a scan starts: at the cursor, inclusive, or at the prefix. */
  function Start(rows: seq<Row>, prefix: Prefix, cursor: Option<Key>): nat {
    Seek(rows, if cursor.Some? then cursor.value else prefix.lo, U64_MAX)
  }

  function Scan(rows: seq<Row>, prefix: Prefix, version: Version, cursor: Option<Key>): seq<(Key, Value)> {
    Upcoming(rows, prefix, version, Start(rows, prefix, cursor))
  }

  lemma {:induction false} SkipSameKey(rows: seq<Row>, prefix: Prefix, version: Version, i: nat, j: nat)
    requires i <= j <= |rows|
    requires forall x :: i <= x < j ==> prefix.Matches(rows[x].key) && !Current(rows, version, x)
    ensures Upcoming(rows, prefix, version, i) == Upcoming(rows, prefix, version, j)
    decreases j - i
  {
    if i < j {
      SkipSameKey(rows, prefix, version, i + 1, j);
    }
  }

  // The iterator

  /** Position in the rows, and the key that was last dealt with. */
  datatype Cursor = Cursor(pos: nat, prevKey: Option<Key>)
  {
    /** The position may be that of the row just dealt with. */
    function After(rows: seq<Row>): nat {
      if pos < |rows| && prevKey == Some(rows[pos].key) then pos + 1 else pos
    }

    ghost predicate Consistent(rows: seq<Row>, version: Version) {
      && Sorted(rows) && pos <= |rows|
      && (prevKey.Some? ==> forall i :: After(rows) <= i < |rows| ==> rows[i].key > prevKey.value)
      && (After(rows) == pos < |rows| ==>
            pos == 0 || rows[pos - 1].key != rows[pos].key || rows[pos - 1].version > version)
    }

    ghost function Rest(rows: seq<Row>, prefix: Prefix, version: Version): seq<(Key, Value)> {
      Upcoming(rows, prefix, version, After(rows))
    }
  }

  /** The iterator over one column family, which it only reads forward or repositions by seeking. */
  class PrefixedStateValueIterator {
    const rows: seq<Row>
    const prefix: Prefix
    const version: Version
    var pos: nat
    var prevKey: Option<Key>
    var finished: bool

    ghost predicate Valid()
      reads this
    {
      finished || Cursor(pos, prevKey).Consistent(rows, version)
    }

    /** The entries still to come. */
    ghost function Remaining(): seq<(Key, Value)>
      reads this
    {
      if finished then [] else Cursor(pos, prevKey).Rest(rows, prefix, version)
    }

    constructor (rows: seq<Row>, prefix: Prefix, cursor: Option<Key>, version: Version)
      requires Sorted(rows)
      ensures Valid() && Remaining() == Scan(rows, prefix, version, cursor)
      ensures this.rows == rows && this.prefix == prefix && this.version == version
    {
      this.rows, this.prefix, this.version := rows, prefix, version;
      pos := Start(rows, prefix, cursor);
      prevKey, finished := None, false;
    }

    /** Hands out the entries in order: skipping newer versions, older versions and deleted keys by
        seeking loses and repeats none. */
    method Next() returns (r: Option<(Key, Value)>)
      requires Valid()
      modifies this`pos, this`prevKey, this`finished
      ensures Valid()
      ensures old(Remaining()) == [] ==> r == None && Remaining() == []
      ensures old(Remaining()) != [] ==> r == Some(old(Remaining())[0]) && Remaining() == old(Remaining())[1..]
    {
      hide Cursor.Consistent, Cursor.Rest, Cursor.After, Seek;
      if finished {
        return None;
      }
      while pos < |rows|
        invariant !finished && Cursor(pos, prevKey).Consistent(rows, version)
        invariant Remaining() == old(Remaining())
        decreases |rows| - Cursor(pos, prevKey).After(rows), |rows| - pos
      {
        ghost var before := Cursor(pos, prevKey);
        var row := rows[pos];
        pos := pos + 1;
        if prevKey == Some(row.key) {
          AgainStep(rows, prefix, version, before);
          continue;
        }
        if !prefix.Matches(row.key) {
          LeaveStep(rows, prefix, version, before);
          finished := true;
          break;
        }
        if row.version > version {
          pos := Seek(rows, row.key, version);
          NewerStep(rows, prefix, version, before);
          continue;
        }
        prevKey := Some(row.key);
        pos := Seek(rows, row.key, 0);
        CurrentStep(rows, prefix, version, before);
        if row.value.Some? {
          return Some((row.key, row.value.value));
        }
      }
      if !finished {
        EndStep(rows, prefix, version, Cursor(pos, prevKey));
      }
      return None;
    }
  }

  lemma EndStep(rows: seq<Row>, prefix: Prefix, version: Version, c: Cursor)
    requires c.Consistent(rows, version) && c.pos >= |rows|
    ensures c.Rest(rows, prefix, version) == []
  {
  }

  lemma AgainStep(rows: seq<Row>, prefix: Prefix, version: Version, c: Cursor)
    requires c.Consistent(rows, version) && c.pos < |rows| && c.prevKey == Some(rows[c.pos].key)
    ensures var c' := c.(pos := c.pos + 1);
      c'.Consistent(rows, version) && c'.Rest(rows, prefix, version) == c.Rest(rows, prefix, version)
      && c'.After(rows) == c.After(rows)
  {
  }

  lemma LeaveStep(rows: seq<Row>, prefix: Prefix, version: Version, c: Cursor)
    requires c.Consistent(rows, version) && c.pos < |rows| && c.prevKey != Some(rows[c.pos].key)
    requires !prefix.Matches(rows[c.pos].key)
    ensures c.Rest(rows, prefix, version) == []
  {
  }

  lemma NewerStep(rows: seq<Row>, prefix: Prefix, version: Version, c: Cursor)
    requires c.Consistent(rows, version) && c.pos < |rows| && c.prevKey != Some(rows[c.pos].key)
    requires prefix.Matches(rows[c.pos].key) && rows[c.pos].version > version
    ensures var c' := c.(pos := Seek(rows, rows[c.pos].key, version));
      c'.Consistent(rows, version) && c'.Rest(rows, prefix, version) == c.Rest(rows, prefix, version)
      && c.After(rows) < c'.After(rows) <= |rows|
  {
    hide Upcoming, Seek;
    SkipNewer(rows, prefix, version, c.pos, Seek(rows, rows[c.pos].key, version));
  }

  lemma CurrentStep(rows: seq<Row>, prefix: Prefix, version: Version, c: Cursor)
    requires c.Consistent(rows, version) && c.pos < |rows| && c.prevKey != Some(rows[c.pos].key)
    requires prefix.Matches(rows[c.pos].key) && rows[c.pos].version <= version
    ensures var row := rows[c.pos];
      var c' := Cursor(Seek(rows, row.key, 0), Some(row.key));
      && c'.Consistent(rows, version) && c.After(rows) < c'.After(rows) <= |rows|
      && c.Rest(rows, prefix, version)
         == (if row.value.Some? then [(row.key, row.value.value)] else []) + c'.Rest(rows, prefix, version)
  {
    hide Seek;
    var row := rows[c.pos];
    var c' := Cursor(Seek(rows, row.key, 0), Some(row.key));
    SkipOlder(rows, prefix, version, c.pos, c'.pos, c'.After(rows));
    assert Current(rows, version, c.pos);
  }

  lemma SkipNewer(rows: seq<Row>, prefix: Prefix, version: Version, p: nat, q: nat)
    requires Sorted(rows) && p < |rows| && prefix.Matches(rows[p].key) && rows[p].version > version
    requires q == Seek(rows, rows[p].key, version)
    ensures p < q && (forall x :: p <= x < q ==> rows[x].key == rows[p].key && rows[x].version > version)
    ensures Upcoming(rows, prefix, version, p) == Upcoming(rows, prefix, version, q)
  {
    SkipSameKey(rows, prefix, version, p, q);
  }

  lemma SeekPastKey(rows: seq<Row>, p: nat, q: nat, next: nat)
    requires Sorted(rows) && p < |rows| && q == Seek(rows, rows[p].key, 0)
    requires next == if q < |rows| && rows[q].key == rows[p].key then q + 1 else q
    ensures p < next && (forall x :: p <= x < next ==> rows[x].key == rows[p].key)
    ensures forall x :: next <= x < |rows| ==> rows[x].key > rows[p].key
  {
    assert forall x :: 0 <= x < p ==> Precedes(rows[x], rows[p].key, 0);
    assert p <= q;
    forall x | next <= x < |rows| ensures rows[x].key > rows[p].key {
      if x > q {
        assert rows[q].key < rows[x].key || rows[q].version > rows[x].version;
      }
    }
  }

  lemma SkipOlder(rows: seq<Row>, prefix: Prefix, version: Version, p: nat, q: nat, next: nat)
    requires Sorted(rows) && p < |rows| && prefix.Matches(rows[p].key) && rows[p].version <= version
    requires q == Seek(rows, rows[p].key, 0)
    requires next == if q < |rows| && rows[q].key == rows[p].key then q + 1 else q
    ensures p < next && (forall x :: next <= x < |rows| ==> rows[x].key > rows[p].key)
    ensures Upcoming(rows, prefix, version, p + 1) == Upcoming(rows, prefix, version, next)
    ensures next < |rows| ==> rows[next - 1].key != rows[next].key
  {
    hide Upcoming, Seek;
    SeekPastKey(rows, p, q, next);
    forall x | p < x < next ensures !Current(rows, version, x) {
      assert rows[x - 1].key == rows[p].key && rows[x - 1].version <= rows[p].version;
    }
    SkipSameKey(rows, prefix, version, p + 1, next);
  }

  // What a scan means

  predicate IsLatest(rows: seq<Row>, version: Version, k: Key, p: nat) {
    && p < |rows| && rows[p].key == k && rows[p].version <= version
    && forall j :: 0 <= j < |rows| && rows[j].key == k && rows[j].version <= version ==>
         rows[j].version <= rows[p].version
  }

  /** The value of a key at a version: that of its latest row not after the version. */
  ghost predicate Holds(rows: seq<Row>, version: Version, k: Key, x: Value) {
    exists p: nat :: IsLatest(rows, version, k, p) && rows[p].value == Some(x)
  }

  lemma CurrentIsLatest(rows: seq<Row>, version: Version, p: nat)
    requires Sorted(rows) && p < |rows|
    ensures Current(rows, version, p) <==> IsLatest(rows, version, rows[p].key, p)
  {
    if p > 0 {
      assert forall j :: 0 <= j < p ==> rows[j].key <= rows[p - 1].key;
    }
  }

  ghost predicate EntryFrom(rows: seq<Row>, prefix: Prefix, version: Version, i: nat, e: (Key, Value)) {
    exists p: nat :: i <= p < |rows| && Current(rows, version, p) && rows[p].key == e.0 && rows[p].value == Some(e.1)
      && prefix.Matches(e.0)
  }

  lemma {:induction false} UpcomingEntries(rows: seq<Row>, prefix: Prefix, version: Version, i: nat, e: (Key, Value))
    requires Sorted(rows) && forall x :: i <= x < |rows| ==> rows[x].key >= prefix.lo
    ensures e in Upcoming(rows, prefix, version, i) <==> EntryFrom(rows, prefix, version, i, e)
    decreases |rows| - i
  {
    if i < |rows| && prefix.Matches(rows[i].key) {
      UpcomingEntries(rows, prefix, version, i + 1, e);
      if EntryFrom(rows, prefix, version, i, e) && !EntryFrom(rows, prefix, version, i + 1, e) {
        var p: nat :| i <= p < |rows| && Current(rows, version, p) && rows[p].key == e.0 && rows[p].value == Some(e.1)
          && prefix.Matches(e.0);
        assert p == i;
      }
    }
  }

  /** No stored key lies between the cursor and the prefix. */
  predicate StartsInPrefix(rows: seq<Row>, prefix: Prefix, cursor: Option<Key>) {
    cursor.Some? ==> forall i :: 0 <= i < |rows| ==> !(cursor.value <= rows[i].key < prefix.lo)
  }

  lemma StartIsAtCursor(rows: seq<Row>, prefix: Prefix, cursor: Option<Key>, i: nat)
    requires Sorted(rows) && i < |rows|
    ensures Start(rows, prefix, cursor) <= i
       <==> rows[i].key >= if cursor.Some? then cursor.value else prefix.lo
  {
    hide SeekFrom;
    var start := Start(rows, prefix, cursor);
    if start <= i {
      assert rows[start].key <= rows[i].key;
    }
  }

  /** A scan holds exactly the keys with the prefix, from the cursor on, with their values at the version. */
  lemma ScanIsSnapshot(rows: seq<Row>, prefix: Prefix, version: Version, cursor: Option<Key>, k: Key, x: Value)
    requires Sorted(rows) && StartsInPrefix(rows, prefix, cursor)
    ensures (k, x) in Scan(rows, prefix, version, cursor)
       <==> prefix.Matches(k) && (cursor.Some? ==> k >= cursor.value) && Holds(rows, version, k, x)
  {
    hide Upcoming, Seek;
    var start := Start(rows, prefix, cursor);
    forall i | start <= i < |rows| ensures rows[i].key >= prefix.lo {
      StartIsAtCursor(rows, prefix, cursor, i);
    }
    UpcomingEntries(rows, prefix, version, start, (k, x));
    if EntryFrom(rows, prefix, version, start, (k, x)) {
      var p: nat :| start <= p < |rows| && Current(rows, version, p) && rows[p].key == k && rows[p].value == Some(x);
      CurrentIsLatest(rows, version, p);
    }
    if prefix.Matches(k) && (cursor.Some? ==> k >= cursor.value) && Holds(rows, version, k, x) {
      var p: nat :| IsLatest(rows, version, k, p) && rows[p].value == Some(x);
      CurrentIsLatest(rows, version, p);
      StartIsAtCursor(rows, prefix, cursor, p);
    }
  }

  /** A cursor before the prefix, with other keys in between, gives an empty scan. */
  lemma StartOutsidePrefix(rows: seq<Row>, prefix: Prefix, version: Version, cursor: Option<Key>)
    requires Sorted(rows) && !StartsInPrefix(rows, prefix, cursor)
    ensures Scan(rows, prefix, version, cursor) == []
  {
    var start := Start(rows, prefix, cursor);
    var i: nat :| i < |rows| && cursor.value <= rows[i].key < prefix.lo;
    StartIsAtCursor(rows, prefix, cursor, i);
    assert rows[start].key <= rows[i].key;
  }

  lemma {:induction false} UpcomingAscends(rows: seq<Row>, prefix: Prefix, version: Version, i: nat, a: nat, b: nat)
    requires Sorted(rows) && a < b < |Upcoming(rows, prefix, version, i)|
    ensures Upcoming(rows, prefix, version, i)[a].0 < Upcoming(rows, prefix, version, i)[b].0
    decreases |rows| - i
  {
    var rest := Upcoming(rows, prefix, version, i + 1);
    if Current(rows, version, i) && rows[i].value.Some? {
      if a > 0 {
        UpcomingAscends(rows, prefix, version, i + 1, a - 1, b - 1);
      } else {
        var p := RowOf(rows, prefix, version, i + 1, b - 1);
        CurrentIsLatest(rows, version, i);
        CurrentIsLatest(rows, version, p);
      }
    } else {
      UpcomingAscends(rows, prefix, version, i + 1, a, b);
    }
  }

  lemma {:induction false} RowOf(rows: seq<Row>, prefix: Prefix, version: Version, i: nat, b: nat) returns (p: nat)
    requires b < |Upcoming(rows, prefix, version, i)|
    ensures i <= p < |rows| && Current(rows, version, p)
    ensures rows[p].key == Upcoming(rows, prefix, version, i)[b].0
    decreases |rows| - i
  {
    if Current(rows, version, i) && rows[i].value.Some? && b == 0 {
      p := i;
    } else if Current(rows, version, i) && rows[i].value.Some? {
      p := RowOf(rows, prefix, version, i + 1, b - 1);
    } else {
      p := RowOf(rows, prefix, version, i + 1, b);
    }
  }

  /** Keys come in increasing order, each once. */
  lemma ScanAscends(rows: seq<Row>, prefix: Prefix, version: Version, cursor: Option<Key>, a: nat, b: nat)
    requires Sorted(rows) && a < b < |Scan(rows, prefix, version, cursor)|
    ensures Scan(rows, prefix, version, cursor)[a].0 < Scan(rows, prefix, version, cursor)[b].0
  {
    UpcomingAscends(rows, prefix, version, Start(rows, prefix, cursor), a, b);
  }

  /** Starting again at the key of an entry continues the scan with that entry. */
  lemma {:induction false} ResumeUpcoming(rows: seq<Row>, prefix: Prefix, version: Version, i: nat, j: nat)
    requires Sorted(rows) && j < |Upcoming(rows, prefix, version, i)|
    ensures var k := Upcoming(rows, prefix, version, i)[j].0;
      Upcoming(rows, prefix, version, Seek(rows, k, U64_MAX)) == Upcoming(rows, prefix, version, i)[j..]
    decreases |rows| - i
  {
    hide Seek;
    if Current(rows, version, i) && rows[i].value.Some? {
      if j == 0 {
        BackToFirstRow(rows, prefix, version, i);
      } else {
        ResumeUpcoming(rows, prefix, version, i + 1, j - 1);
      }
    } else {
      ResumeUpcoming(rows, prefix, version, i + 1, j);
    }
  }

  lemma BackToFirstRow(rows: seq<Row>, prefix: Prefix, version: Version, i: nat)
    requires Sorted(rows) && i < |rows| && prefix.Matches(rows[i].key) && Current(rows, version, i)
    ensures Upcoming(rows, prefix, version, Seek(rows, rows[i].key, U64_MAX)) == Upcoming(rows, prefix, version, i)
  {
    hide Upcoming, Seek;
    var first := Seek(rows, rows[i].key, U64_MAX);
    assert first <= i;
    CurrentIsLatest(rows, version, i);
    forall x | first <= x < i ensures rows[x].key == rows[i].key && !Current(rows, version, x) {
      assert rows[first].key <= rows[x].key;
    }
    SkipSameKey(rows, prefix, version, first, i);
  }

  lemma ResumeScan(rows: seq<Row>, prefix: Prefix, version: Version, cursor: Option<Key>, j: nat)
    requires Sorted(rows) && j < |Scan(rows, prefix, version, cursor)|
    ensures Scan(rows, prefix, version, Some(Scan(rows, prefix, version, cursor)[j].0))
         == Scan(rows, prefix, version, cursor)[j..]
  {
    ResumeUpcoming(rows, prefix, version, Start(rows, prefix, cursor), j);
  }
}
