/** Listing an account's modules page by page (`get_modules_by_pagination` in `api/src/context.rs`). */
module ModulePages {
  import opened Types
  import opened Sequences
  import opened StateScan

  /** What the path of a state key decodes to; `Malformed` stands for every decoding error. */
  datatype Kind = Code | Data | Malformed

  datatype PageError = MalformedKey

  type Entry = (Key, Value)

  datatype Page = Page(modules: seq<Entry>, next: Option<Key>)

  /** Modules and malformed keys; resources are skipped. */
  function Items(entries: seq<Entry>, kind: Key -> Kind): seq<Entry> {
    Filter(entries, NotData(kind))
  }

  function NotData(kind: Key -> Kind): Entry -> bool {
    (e: Entry) => !kind(e.0).Data?
  }

  predicate WellKeyed(items: seq<Entry>, kind: Key -> Kind) {
    forall i :: 0 <= i < |items| ==> kind(items[i].0).Code?
  }

  /** Up to `limit` modules and the key of the one after; one malformed key on the way fails the page. */
  function PageOf(items: seq<Entry>, kind: Key -> Kind, limit: nat): Result<Page, PageError> {
    if |items| <= limit then
      if WellKeyed(items, kind) then Ok(Page(items, None)) else Err(MalformedKey)
    else if WellKeyed(items[..limit + 1], kind) then Ok(Page(items[..limit], Some(items[limit].0)))
    else Err(MalformedKey)
  }

  method GetModulesByPagination(rows: seq<Row>, prefix: Prefix, cursor: Option<Key>, version: Version, limit: nat,
                                kind: Key -> Kind)
    returns (r: Result<Page, PageError>)
    requires Sorted(rows)
    ensures r == PageOf(Items(Scan(rows, prefix, version, cursor), kind), kind, limit)
  {
    ghost var all := Scan(rows, prefix, version, cursor);
    hide Scan, Sorted, Items, PageOf, Collected, Cursor.Consistent, Cursor.Rest;
    ghost var seen := 0;
    var entries := new PrefixedStateValueIterator(rows, prefix, cursor, version);
    var modules: seq<Entry> := [];
    var entry := entries.Next();
    CollectNothing(all, kind, limit);
    while entry.Some?
      invariant entries.Valid() && 0 <= seen <= |all|
      invariant entry.Some? <==> seen < |all|
      invariant entry.Some? ==> entry.value == all[seen] && entries.Remaining() == all[seen + 1..]
      invariant Collected(all, kind, limit, seen, modules) && |modules| <= limit
      decreases |all| - seen
    {
      var e := entry.value;
      match kind(e.0) {
        case Data =>
          CollectNext(all, kind, limit, seen, modules);
        case Malformed =>
          PageFails(all, kind, limit, seen, modules);
          return Err(MalformedKey);
        case Code =>
          if |modules| == limit {
            PageEnds(all, kind, limit, seen, modules);
            return Ok(Page(modules, Some(e.0)));
          }
          CollectNext(all, kind, limit, seen, modules);
          modules := modules + [e];
      }
      Suffix(all, seen + 1);
      entry := entries.Next();
      seen := seen + 1;
    }
    LastPage(all, kind, limit, modules);
    return Ok(Page(modules, None));
  }

  /** The modules found in the first `i` entries. */
  predicate Collected(all: seq<Entry>, kind: Key -> Kind, limit: nat, i: nat, modules: seq<Entry>) {
    i <= |all| && modules == Items(all[..i], kind) && |modules| <= limit && WellKeyed(modules, kind)
  }

  lemma Suffix(all: seq<Entry>, i: nat)
    requires i <= |all|
    ensures if i == |all| then all[i..] == []
            else all[i..] != [] && all[i..][0] == all[i] && all[i..][1..] == all[i + 1..]
  {
  }

  lemma ItemsSplit(all: seq<Entry>, kind: Key -> Kind, i: nat)
    requires i < |all|
    ensures Items(all[..i + 1], kind) == Items(all[..i], kind) + if kind(all[i].0).Data? then [] else [all[i]]
    ensures Items(all, kind) == Items(all[..i + 1], kind) + Items(all[i + 1..], kind)
  {
    assert all[..i + 1][..i] == all[..i];
    assert all == all[..i + 1] + all[i + 1..];
    FilterAppend(all[..i + 1], all[i + 1..], NotData(kind));
  }

  lemma CollectNothing(all: seq<Entry>, kind: Key -> Kind, limit: nat)
    ensures Collected(all, kind, limit, 0, [])
  {
  }

  lemma CollectNext(all: seq<Entry>, kind: Key -> Kind, limit: nat, i: nat, modules: seq<Entry>)
    requires Collected(all, kind, limit, i, modules) && i < |all|
    ensures kind(all[i].0).Data? ==> Collected(all, kind, limit, i + 1, modules)
    ensures kind(all[i].0).Code? && |modules| < limit ==> Collected(all, kind, limit, i + 1, modules + [all[i]])
  {
    ItemsSplit(all, kind, i);
  }

  lemma LastPage(all: seq<Entry>, kind: Key -> Kind, limit: nat, modules: seq<Entry>)
    requires Collected(all, kind, limit, |all|, modules)
    ensures PageOf(Items(all, kind), kind, limit) == Ok(Page(modules, None))
  {
    assert all[..|all|] == all;
  }

  lemma PageEnds(all: seq<Entry>, kind: Key -> Kind, limit: nat, i: nat, modules: seq<Entry>)
    requires Collected(all, kind, limit, i, modules) && i < |all| && kind(all[i].0).Code? && |modules| == limit
    ensures PageOf(Items(all, kind), kind, limit) == Ok(Page(modules, Some(all[i].0)))
  {
    ItemsSplit(all, kind, i);
    hide Items;
    var items := Items(all, kind);
    assert items[..limit + 1] == modules + [all[i]];
    assert items[..limit] == modules;
    assert items[limit] == (modules + [all[i]])[limit];
  }

  lemma PageFails(all: seq<Entry>, kind: Key -> Kind, limit: nat, i: nat, modules: seq<Entry>)
    requires Collected(all, kind, limit, i, modules) && i < |all| && kind(all[i].0).Malformed?
    ensures PageOf(Items(all, kind), kind, limit) == Err(MalformedKey)
  {
    ItemsSplit(all, kind, i);
    hide Items;
    var items, at := Items(all, kind), |modules|;
    assert items[at] == all[i];
    if |items| > limit {
      assert items[..limit + 1][at] == items[at];
    }
  }

  // Following the cursors

  /** The next page starts at the first module the page before left out. */
  lemma NextPage(rows: seq<Row>, prefix: Prefix, version: Version, cursor: Option<Key>, kind: Key -> Kind, j: nat)
    requires Sorted(rows) && j < |Items(Scan(rows, prefix, version, cursor), kind)|
    ensures var items := Items(Scan(rows, prefix, version, cursor), kind);
      Items(Scan(rows, prefix, version, Some(items[j].0)), kind) == items[j..]
  {
    hide Scan;
    var at := FilterFrom(Scan(rows, prefix, version, cursor), NotData(kind), j);
    ResumeScan(rows, prefix, version, cursor, at);
  }

  /** All pages, end to end. */
  function Follow(rows: seq<Row>, prefix: Prefix, version: Version, cursor: Option<Key>, limit: nat, kind: Key -> Kind)
    : Result<seq<Entry>, PageError>
    requires Sorted(rows) && limit >= 1
    decreases |Items(Scan(rows, prefix, version, cursor), kind)|
  {
    var items := Items(Scan(rows, prefix, version, cursor), kind);
    var page := PageOf(items, kind, limit);
    if page.Err? then Err(page.error)
    else if page.value.next.None? then Ok(page.value.modules)
    else
      NextPage(rows, prefix, version, cursor, kind, limit);
      var rest := Follow(rows, prefix, version, page.value.next, limit, kind);
      if rest.Err? then rest else Ok(page.value.modules + rest.value)
  }

  /** With any limit of at least one, following the cursors ends, and gives every module once and in order,
      unless some key is malformed. */
  lemma {:induction false} PagesAreComplete(rows: seq<Row>, prefix: Prefix, version: Version, cursor: Option<Key>,
                                            limit: nat, kind: Key -> Kind)
    requires Sorted(rows) && limit >= 1
    ensures var items := Items(Scan(rows, prefix, version, cursor), kind);
      Follow(rows, prefix, version, cursor, limit, kind)
      == if WellKeyed(items, kind) then Ok(items) else Err(MalformedKey)
    decreases |Items(Scan(rows, prefix, version, cursor), kind)|
  {
    hide Scan, Sorted, Items;
    var items := Items(Scan(rows, prefix, version, cursor), kind);
    if |items| > limit {
      NextPage(rows, prefix, version, cursor, kind, limit);
      PagesAreComplete(rows, prefix, version, Some(items[limit].0), limit, kind);
      assert items == items[..limit] + items[limit..];
      if WellKeyed(items[..limit + 1], kind) && WellKeyed(items[limit..], kind) {
        forall i | 0 <= i < |items| ensures kind(items[i].0).Code? {
          if i < limit {
            assert items[..limit + 1][i] == items[i];
          } else {
            assert items[limit..][i - limit] == items[i];
          }
        }
      }
      if WellKeyed(items, kind) {
        assert WellKeyed(items[..limit + 1], kind) && WellKeyed(items[limit..], kind);
      }
    }
  }

  /** With a limit of zero the first cursor points at itself: the pages stay empty and never end. */
  lemma ZeroLimitStalls(rows: seq<Row>, prefix: Prefix, version: Version, cursor: Option<Key>, kind: Key -> Kind)
    requires Sorted(rows)
    requires var items := Items(Scan(rows, prefix, version, cursor), kind); items != [] && kind(items[0].0).Code?
    ensures var first := Some(Items(Scan(rows, prefix, version, cursor), kind)[0].0);
      && PageOf(Items(Scan(rows, prefix, version, cursor), kind), kind, 0) == Ok(Page([], first))
      && PageOf(Items(Scan(rows, prefix, version, first), kind), kind, 0) == Ok(Page([], first))
  {
    hide Scan, Items;
    NextPage(rows, prefix, version, cursor, kind, 0);
  }

  /** What the pages list, together: the modules of the account with their code at the version. */
  lemma ListedModules(rows: seq<Row>, prefix: Prefix, version: Version, limit: nat, kind: Key -> Kind, k: Key, x: Value)
    requires Sorted(rows) && limit >= 1 && Follow(rows, prefix, version, None, limit, kind).Ok?
    ensures (k, x) in Follow(rows, prefix, version, None, limit, kind).value
       <==> prefix.Matches(k) && kind(k).Code? && Holds(rows, version, k, x)
  {
    hide Scan, Holds, Follow;
    PagesAreComplete(rows, prefix, version, None, limit, kind);
    var entries := Scan(rows, prefix, version, None);
    var items := Items(entries, kind);
    FilterMembers(entries, NotData(kind), (k, x));
    if (k, x) in items {
      var i :| 0 <= i < |items| && items[i] == (k, x);
    }
    PrefixStartsInside(rows, prefix);
    ScanIsSnapshot(rows, prefix, version, None, k, x);
  }

  lemma PrefixStartsInside(rows: seq<Row>, prefix: Prefix)
    requires Sorted(rows)
    ensures StartsInPrefix(rows, prefix, None)
  {
    var start := Start(rows, prefix, None);
    forall i | start <= i < |rows| ensures rows[i].key >= prefix.lo {
      assert rows[start].key <= rows[i].key;
    }
  }
}
