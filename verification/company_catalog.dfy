/**
 * The company catalogue: the accent-insensitive name normalisation, the
 * autocomplete search over the company table, and the synchronisation
 * that upserts the service-desk system's active companies into that table.
 */
module CompanyCatalog {
  import opened Wrappers
  import Text
  import Sorting

  // ------------------------------------------------------------ normalisation

  /** The combining diacritical marks, U+0300 to U+036F. */
  predicate IsCombiningMark(c: char) {
    0x300 <= c as int <= 0x36F
  }

  predicate HasNoMarks(s: string) {
    forall i :: 0 <= i < |s| ==> !IsCombiningMark(s[i])
  }

  /** `replace(/[̀-ͯ]/g, '')`. */
  function StripMarks(s: string): (r: string)
    ensures HasNoMarks(r)
    ensures |r| <= |s|
  {
    if s == [] then []
    else if IsCombiningMark(s[0]) then StripMarks(s[1..])
    else [s[0]] + StripMarks(s[1..])
  }

  /** Text without marks is left as it is; in particular stripping twice is stripping once. */
  lemma {:induction false} StripMarksOfMarkFree(s: string)
    requires HasNoMarks(s)
    ensures StripMarks(s) == s
  {
    if s != [] {
      assert HasNoMarks(s[1..]) by {
        forall i | 0 <= i < |s[1..]| ensures !IsCombiningMark(s[1..][i]) {
          assert s[1..][i] == s[i + 1];
        }
      }
      StripMarksOfMarkFree(s[1..]);
    }
  }

  /** Exactly the marks are removed: a character survives iff it occurs in the input and is not a mark. */
  lemma {:induction false} StripMarksKeepsTheRest(s: string, c: char)
    ensures c in StripMarks(s) <==> c in s && !IsCombiningMark(c)
  {
    if s != [] {
      StripMarksKeepsTheRest(s[1..], c);
      assert s == [s[0]] + s[1..];
    }
  }

  /**
   * `normalizeString`: `toLowerCase().normalize('NFD')` is the parameter
   * `lowerNfd`; the combining marks of its result are then removed.
   */
  function NormalizeString(s: string, lowerNfd: string -> string): (r: string)
    ensures HasNoMarks(r)
  {
    StripMarks(lowerNfd(s))
  }

  // ------------------------------------------------------------------ search

  /** A row of the company table. */
  datatype CompanyRow = CompanyRow(
    id: int,
    autotaskId: int,
    name: string,
    nameNormalized: string,
    isActive: bool)

  /** The fields the search exposes. */
  datatype CompanyHit = CompanyHit(id: int, name: string, autotaskId: int)

  /** Code-point lexicographic order on strings. */
  predicate LexLe(a: string, b: string)
    decreases |a|
  {
    a == [] || (b != [] && (a[0] < b[0] || (a[0] == b[0] && LexLe(a[1..], b[1..]))))
  }

  lemma {:induction false} LexLeTotal(a: string, b: string)
    ensures LexLe(a, b) || LexLe(b, a)
    decreases |a|
  {
    if a != [] && b != [] && a[0] == b[0] {
      LexLeTotal(a[1..], b[1..]);
    }
  }

  lemma {:induction false} LexLeTransitive(a: string, b: string, c: string)
    requires LexLe(a, b) && LexLe(b, c)
    ensures LexLe(a, c)
    decreases |a|
  {
    if a != [] && b != [] && c != [] && a[0] == b[0] && b[0] == c[0] {
      LexLeTransitive(a[1..], b[1..], c[1..]);
    }
  }

  /** `orderBy: { name: 'asc' }`. */
  function NameLe(x: CompanyRow, y: CompanyRow): bool {
    LexLe(x.name, y.name)
  }

  lemma NameOrderIsTotalPreorder()
    ensures Sorting.TotalPreorder(NameLe)
  {
    forall a: CompanyRow, b: CompanyRow ensures NameLe(a, b) || NameLe(b, a) {
      LexLeTotal(a.name, b.name);
    }
    forall a: CompanyRow, b: CompanyRow, c: CompanyRow | NameLe(a, b) && NameLe(b, c)
      ensures NameLe(a, c)
    {
      LexLeTransitive(a.name, b.name, c.name);
    }
  }

  /** The `where` clause: active, and `nameNormalized` starts with the query, ignoring case. */
  predicate Matches(row: CompanyRow, normalizedQuery: string) {
    row.isActive && Text.StartsWith(Text.LowerAscii(row.nameNormalized), Text.LowerAscii(normalizedQuery))
  }

  function Filter(rows: seq<CompanyRow>, normalizedQuery: string): (r: seq<CompanyRow>)
    ensures forall x :: x in r ==> Matches(x, normalizedQuery)
    ensures forall i :: 0 <= i < |rows| && Matches(rows[i], normalizedQuery) ==> rows[i] in r
    ensures multiset(r) <= multiset(rows)
  {
    if rows == [] then []
    else
      assert rows == [rows[0]] + rows[1..];
      (if Matches(rows[0], normalizedQuery) then [rows[0]] else []) + Filter(rows[1..], normalizedQuery)
  }

  function Hit(row: CompanyRow): CompanyHit {
    CompanyHit(row.id, row.name, row.autotaskId)
  }

  /** The active rows whose normalised name starts with the normalised query, in storage order. */
  function Matching(rows: seq<CompanyRow>, query: string, lowerNfd: string -> string): seq<CompanyRow> {
    Filter(rows, NormalizeString(query, lowerNfd))
  }

  /** The rows `searchCompanies` returns, before the `select` projection. */
  function SelectedRows(rows: seq<CompanyRow>, query: Option<string>, lowerNfd: string -> string): seq<CompanyRow> {
    if query.None? || |query.value| < 2 then []
    else
      FirstByName(Matching(rows, query.value, lowerNfd), 10)
  }

  /** `orderBy: { name: 'asc' }` followed by `take: n`. */
  function FirstByName(m: seq<CompanyRow>, n: nat): seq<CompanyRow> {
    var ordered := Sorting.InsertionSort(m, NameLe);
    if |ordered| <= n then ordered else ordered[..n]
  }

  /** `searchCompanies(query)` over the table's rows in storage order. */
  function SearchCompanies(rows: seq<CompanyRow>, query: Option<string>, lowerNfd: string -> string): seq<CompanyHit>
  {
    var selected := SelectedRows(rows, query, lowerNfd);
    seq(|selected|, i requires 0 <= i < |selected| => Hit(selected[i]))
  }

  /** A missing or one-character query returns nothing. */
  lemma ShortQueryFindsNothing(rows: seq<CompanyRow>, query: Option<string>, lowerNfd: string -> string)
    requires query.None? || |query.value| < 2
    ensures SearchCompanies(rows, query, lowerNfd) == []
  {
  }

  lemma SortedByName(m: seq<CompanyRow>)
    ensures Sorting.SortedBy(Sorting.InsertionSort(m, NameLe), NameLe)
  {
    NameOrderIsTotalPreorder();
    Sorting.InsertionSortSorted(m, NameLe);
  }

  /** The first `n` elements of a sorted sequence are sorted and come before every element after them. */
  lemma SortedPrefixIsLeast(ordered: seq<CompanyRow>, n: nat)
    requires n <= |ordered| && Sorting.SortedBy(ordered, NameLe)
    ensures Sorting.SortedBy(ordered[..n], NameLe)
    ensures forall x, y :: x in ordered[n..] && y in ordered[..n] ==> LexLe(y.name, x.name)
  {
    forall x, y | x in ordered[n..] && y in ordered[..n]
      ensures LexLe(y.name, x.name)
    {
      var j :| 0 <= j < |ordered[n..]| && ordered[n..][j] == x;
      var i :| 0 <= i < n && ordered[..n][i] == y;
      assert ordered[i] == y && ordered[n + j] == x;
    }
  }

  /** What a prefix leaves out of a sequence is its suffix. */
  lemma PrefixRemainder(s: seq<CompanyRow>, n: nat)
    requires n <= |s|
    ensures multiset(s) - multiset(s[..n]) == multiset(s[n..])
  {
    assert s == s[..n] + s[n..];
  }

  /** The rows `FirstByName` keeps are the sorted rows up to `k`. */
  lemma FirstByNameIsPrefix(m: seq<CompanyRow>, n: nat) returns (ordered: seq<CompanyRow>, k: nat)
    ensures ordered == Sorting.InsertionSort(m, NameLe)
    ensures k <= n && k <= |ordered| && (|m| <= n ==> k == |m|)
    ensures FirstByName(m, n) == ordered[..k]
    ensures multiset(ordered) == multiset(m)
  {
    ordered := Sorting.InsertionSort(m, NameLe);
    k := if |ordered| <= n then |ordered| else n;
  }

  /** The kept rows are drawn from the input, and are all of it when it is short. */
  lemma FirstByNameDrawn(m: seq<CompanyRow>, n: nat)
    ensures |FirstByName(m, n)| <= n
    ensures multiset(FirstByName(m, n)) <= multiset(m)
    ensures |m| <= n ==> multiset(FirstByName(m, n)) == multiset(m)
  {
    var ordered, k := FirstByNameIsPrefix(m, n);
    assert ordered == ordered[..k] + ordered[k..];
    if |m| <= n {
      assert ordered[..k] == ordered;
    }
  }

  /** No row left out sorts before a kept one. */
  lemma FirstByNameLeast(m: seq<CompanyRow>, n: nat)
    ensures forall x, y :: x in multiset(m) - multiset(FirstByName(m, n)) && y in FirstByName(m, n) ==> LexLe(y.name, x.name)
  {
    var ordered, k := FirstByNameIsPrefix(m, n);
    SortedByName(m);
    SortedPrefixIsLeast(ordered, k);
    PrefixRemainder(ordered, k);
  }

  /** The `n` first rows by name: sorted, drawn from the input, all of it when it is short, and none left out that sorts earlier. */
  lemma FirstByNameMeaning(m: seq<CompanyRow>, n: nat)
    ensures |FirstByName(m, n)| <= n
    ensures Sorting.SortedBy(FirstByName(m, n), NameLe)
    ensures multiset(FirstByName(m, n)) <= multiset(m)
    ensures |m| <= n ==> multiset(FirstByName(m, n)) == multiset(m)
    ensures forall x, y :: x in multiset(m) - multiset(FirstByName(m, n)) && y in FirstByName(m, n) ==> LexLe(y.name, x.name)
  {
    var ordered, k := FirstByNameIsPrefix(m, n);
    SortedByName(m);
    SortedPrefixIsLeast(ordered, k);
    FirstByNameDrawn(m, n);
    FirstByNameLeast(m, n);
  }

  /**
   * For a query of at least two characters the search returns at most 10
   * active companies whose normalised name starts with the normalised
   * query, in name order. They are the first matches by name: every match
   * left out sorts after every match returned, and when there are at most
   * 10 matches all of them are returned.
   */
  lemma SearchResultMeaning(rows: seq<CompanyRow>, query: string, lowerNfd: string -> string)
    requires |query| >= 2
    ensures |SelectedRows(rows, Some(query), lowerNfd)| <= 10
    ensures forall x :: x in SelectedRows(rows, Some(query), lowerNfd) ==> Matches(x, NormalizeString(query, lowerNfd))
    ensures Sorting.SortedBy(SelectedRows(rows, Some(query), lowerNfd), NameLe)
    ensures multiset(SelectedRows(rows, Some(query), lowerNfd)) <= multiset(Matching(rows, query, lowerNfd))
    ensures |Matching(rows, query, lowerNfd)| <= 10 ==>
      multiset(SelectedRows(rows, Some(query), lowerNfd)) == multiset(Matching(rows, query, lowerNfd))
    ensures forall x, y ::
      (x in multiset(Matching(rows, query, lowerNfd)) - multiset(SelectedRows(rows, Some(query), lowerNfd)) &&
       y in SelectedRows(rows, Some(query), lowerNfd)) ==> LexLe(y.name, x.name)
  {
    var matching := Matching(rows, query, lowerNfd);
    var sel := SelectedRows(rows, Some(query), lowerNfd);
    FirstByNameMeaning(matching, 10);
    forall x | x in sel ensures Matches(x, NormalizeString(query, lowerNfd)) {
      assert x in multiset(matching);
    }
  }

  /**
   * What `searchCompanies` answers: nothing for a missing or one-character
   * query; otherwise at most 10 hits, in name order, each the projection of
   * an active row whose normalised name starts with the normalised query,
   * and every such row's hit when there are at most 10 of them.
   */
  lemma SearchHitsMeaning(rows: seq<CompanyRow>, query: Option<string>, lowerNfd: string -> string)
    ensures query.None? || |query.value| < 2 ==> SearchCompanies(rows, query, lowerNfd) == []
    ensures query.Some? && |query.value| >= 2 ==>
      var r := SearchCompanies(rows, query, lowerNfd);
      var q := NormalizeString(query.value, lowerNfd);
      && |r| <= 10
      && (forall i :: 0 <= i < |r| ==> IsHitOf(r[i], rows, q))
      && (forall i, j :: 0 <= i < j < |r| ==> LexLe(r[i].name, r[j].name))
      && (|Matching(rows, query.value, lowerNfd)| <= 10 ==>
            forall x :: x in rows && Matches(x, q) ==> Hit(x) in r)
  {
    if query.Some? && |query.value| >= 2 {
      var sel := SelectedRows(rows, query, lowerNfd);
      var r := SearchCompanies(rows, query, lowerNfd);
      var q := NormalizeString(query.value, lowerNfd);
      SelectedRowsMeaning(rows, query.value, lowerNfd);
      HitsDrawnFrom(sel, r, rows, q);
      HitsInOrder(sel, r);
      if |Matching(rows, query.value, lowerNfd)| <= 10 {
        HitsCoverSelected(sel, r, rows, q);
      }
    }
  }

  /** The rows behind the hits: drawn from the matching rows, in name order, all of them when at most 10. */
  lemma SelectedRowsMeaning(rows: seq<CompanyRow>, query: string, lowerNfd: string -> string)
    requires |query| >= 2
    ensures var sel := SelectedRows(rows, Some(query), lowerNfd);
      var q := NormalizeString(query, lowerNfd);
      && |sel| <= 10
      && (forall x :: x in sel ==> x in rows && Matches(x, q))
      && Sorting.SortedBy(sel, NameLe)
      && (|Matching(rows, query, lowerNfd)| <= 10 ==> forall x :: x in rows && Matches(x, q) ==> x in sel)
  {
    var matching := Matching(rows, query, lowerNfd);
    var sel := SelectedRows(rows, Some(query), lowerNfd);
    var q := NormalizeString(query, lowerNfd);
    SearchResultMeaning(rows, query, lowerNfd);
    assert multiset(matching) <= multiset(rows);
    forall x | x in sel ensures x in rows {
      assert x in multiset(sel);
    }
    if |matching| <= 10 {
      forall x | x in rows && Matches(x, q) ensures x in sel {
        var k :| 0 <= k < |rows| && rows[k] == x;
        assert x in matching;
        assert x in multiset(sel);
      }
    }
  }

  /** `h` is what the search exposes of an active row matching `q`. */
  predicate IsHitOf(h: CompanyHit, rows: seq<CompanyRow>, q: string) {
    exists x :: x in rows && Matches(x, q) && h == Hit(x)
  }

  lemma HitsDrawnFrom(sel: seq<CompanyRow>, r: seq<CompanyHit>, rows: seq<CompanyRow>, q: string)
    requires |r| == |sel| && forall i :: 0 <= i < |r| ==> r[i] == Hit(sel[i])
    requires forall x :: x in sel ==> x in rows && Matches(x, q)
    ensures forall i :: 0 <= i < |r| ==> IsHitOf(r[i], rows, q)
  {
    forall i | 0 <= i < |r| ensures IsHitOf(r[i], rows, q) {
      var x := sel[i];
      assert x in sel;
      assert x in rows && Matches(x, q) && r[i] == Hit(x);
      assert IsHitOf(r[i], rows, q);
    }
  }

  lemma HitsInOrder(sel: seq<CompanyRow>, r: seq<CompanyHit>)
    requires |r| == |sel| && forall i :: 0 <= i < |r| ==> r[i] == Hit(sel[i])
    requires Sorting.SortedBy(sel, NameLe)
    ensures forall i, j :: 0 <= i < j < |r| ==> LexLe(r[i].name, r[j].name)
  {
    forall i, j | 0 <= i < j < |r| ensures LexLe(r[i].name, r[j].name) {
      assert NameLe(sel[i], sel[j]);
    }
  }

  lemma HitsCoverSelected(sel: seq<CompanyRow>, r: seq<CompanyHit>, rows: seq<CompanyRow>, q: string)
    requires |r| == |sel| && forall i :: 0 <= i < |r| ==> r[i] == Hit(sel[i])
    requires forall x :: x in rows && Matches(x, q) ==> x in sel
    ensures forall x :: x in rows && Matches(x, q) ==> Hit(x) in r
  {
    forall x | x in rows && Matches(x, q) ensures Hit(x) in r {
      var m :| 0 <= m < |sel| && sel[m] == x;
      assert r[m] == Hit(x);
    }
  }

  // -------------------------------------------------------------------- sync

  /** One item of the Companies query. */
  datatype ServiceDeskCompany = ServiceDeskCompany(id: int, companyName: string)

  datatype CompaniesResponse =
    | CompaniesFailed(message: string)
    | CompaniesReceived(items: Option<seq<ServiceDeskCompany>>)

  /**
   * The company table keyed by `autotaskId`. `nextId` is the store's id
   * sequence, the next local id it hands out, and `activeByDefault` the value
   * `isActive` takes on a created row (the table's default).
   */
  datatype CompanyTable = CompanyTable(rows: map<int, CompanyRow>, nextId: int, activeByDefault: bool)

  /**
   * The upsert by `autotaskId`: update sets name and normalised name, create
   * also gives the row a local id. The store runs it as one insert that falls
   * back to an update on a clash of `autotaskId`, so it draws a value from
   * the id sequence either way; only a created row keeps it.
   */
  function UpsertCompany(table: CompanyTable, c: ServiceDeskCompany, lowerNfd: string -> string): CompanyTable {
    var normalized := NormalizeString(c.companyName, lowerNfd);
    if c.id in table.rows then
      table.(rows := table.rows[c.id := table.rows[c.id].(name := c.companyName, nameNormalized := normalized)],
             nextId := table.nextId + 1)
    else
      table.(rows := table.rows[c.id := CompanyRow(table.nextId, c.id, c.companyName, normalized, table.activeByDefault)],
             nextId := table.nextId + 1)
  }

  function UpsertCompanies(table: CompanyTable, cs: seq<ServiceDeskCompany>, lowerNfd: string -> string): CompanyTable
    decreases |cs|
  {
    if cs == [] then table
    else UpsertCompany(UpsertCompanies(table, cs[..|cs| - 1], lowerNfd), cs[|cs| - 1], lowerNfd)
  }

  /** The name the last item with id `k` carries, if any. */
  function LatestName(cs: seq<ServiceDeskCompany>, k: int): Option<string>
    decreases |cs|
  {
    if cs == [] then None
    else if cs[|cs| - 1].id == k then Some(cs[|cs| - 1].companyName)
    else LatestName(cs[..|cs| - 1], k)
  }

  /** A row agrees with a list of items when it carries the latest name they give its id. */
  predicate RowAgrees(row: CompanyRow, cs: seq<ServiceDeskCompany>, lowerNfd: string -> string) {
    LatestName(cs, row.autotaskId).Some? ==>
      row.name == LatestName(cs, row.autotaskId).value &&
      row.nameNormalized == NormalizeString(row.name, lowerNfd)
  }

  /** An upsert never changes a row's local id, its `autotaskId` or its `isActive` flag. */
  predicate SameIdentity(after: CompanyRow, before: CompanyRow) {
    after.id == before.id && after.autotaskId == before.autotaskId && after.isActive == before.isActive
  }

  predicate KeyedByAutotaskId(table: CompanyTable) {
    forall k :: k in table.rows ==> table.rows[k].autotaskId == k
  }

  /** One upsert adds its id to the keys and draws one value from the id sequence, whether it creates or updates. */
  lemma UpsertCompanyKeys(table: CompanyTable, c: ServiceDeskCompany, lowerNfd: string -> string)
    ensures UpsertCompany(table, c, lowerNfd).rows.Keys == table.rows.Keys + {c.id}
    ensures UpsertCompany(table, c, lowerNfd).nextId == table.nextId + 1
    ensures UpsertCompany(table, c, lowerNfd).activeByDefault == table.activeByDefault
  {
  }

  /** The ids with a row after a sync are those before plus those the items name; the table's default is kept. */
  lemma {:induction false} UpsertCompaniesMembership(table: CompanyTable, cs: seq<ServiceDeskCompany>, lowerNfd: string -> string)
    ensures var after := UpsertCompanies(table, cs, lowerNfd);
      && (forall k :: k in after.rows <==> k in table.rows || LatestName(cs, k).Some?)
      && after.activeByDefault == table.activeByDefault
    decreases |cs|
  {
    if cs != [] {
      var p := cs[..|cs| - 1];
      UpsertCompaniesMembership(table, p, lowerNfd);
      UpsertCompanyKeys(UpsertCompanies(table, p, lowerNfd), cs[|cs| - 1], lowerNfd);
    }
  }

  /**
   * A sync draws one value from the id sequence per item, and every row it
   * creates took a local id from the values it drew.
   */
  lemma {:induction false} UpsertCompaniesNextId(table: CompanyTable, cs: seq<ServiceDeskCompany>, lowerNfd: string -> string)
    ensures var after := UpsertCompanies(table, cs, lowerNfd);
      && after.nextId == table.nextId + |cs|
      && (forall k :: k in after.rows && k !in table.rows ==> table.nextId <= after.rows[k].id < after.nextId)
    decreases |cs|
  {
    if cs != [] {
      UpsertCompaniesNextId(table, cs[..|cs| - 1], lowerNfd);
    }
  }

  /** No two rows share a local id, and every local id was drawn from the sequence before its current value. */
  predicate WellNumbered(table: CompanyTable) {
    && (forall k :: k in table.rows ==> table.rows[k].id < table.nextId)
    && (forall k, m :: k in table.rows && m in table.rows && k != m ==> table.rows[k].id != table.rows[m].id)
  }

  /** A sync keeps local ids distinct: a created row takes a value no row holds. */
  lemma {:induction false} UpsertCompaniesWellNumbered(table: CompanyTable, cs: seq<ServiceDeskCompany>, lowerNfd: string -> string)
    requires WellNumbered(table)
    ensures WellNumbered(UpsertCompanies(table, cs, lowerNfd))
    decreases |cs|
  {
    if cs != [] {
      UpsertCompaniesWellNumbered(table, cs[..|cs| - 1], lowerNfd);
    }
  }

  /**
   * After a sync the table has a row for exactly the ids it had plus the
   * ids the items name (none is deleted), and the id sequence moved on by
   * one per item.
   */
  lemma UpsertCompaniesKeys(table: CompanyTable, cs: seq<ServiceDeskCompany>, lowerNfd: string -> string)
    ensures var after := UpsertCompanies(table, cs, lowerNfd);
      && (forall k :: k in after.rows <==> k in table.rows || LatestName(cs, k).Some?)
      && after.nextId == table.nextId + |cs|
      && after.activeByDefault == table.activeByDefault
  {
    UpsertCompaniesMembership(table, cs, lowerNfd);
    UpsertCompaniesNextId(table, cs, lowerNfd);
  }

  /**
   * After a sync every row carries the latest name the items give its id,
   * rows keep their local id, `autotaskId` and `isActive`, and rows of ids
   * the items do not name are unchanged.
   */
  lemma {:induction false} UpsertCompaniesRows(table: CompanyTable, cs: seq<ServiceDeskCompany>, lowerNfd: string -> string)
    requires KeyedByAutotaskId(table)
    ensures var after := UpsertCompanies(table, cs, lowerNfd);
      && KeyedByAutotaskId(after)
      && (forall k :: k in after.rows ==> RowAgrees(after.rows[k], cs, lowerNfd))
      && (forall k :: k in table.rows ==> k in after.rows && SameIdentity(after.rows[k], table.rows[k]))
      && (forall k :: k in table.rows && LatestName(cs, k).None? ==> after.rows[k] == table.rows[k])
    decreases |cs|
  {
    if cs != [] {
      UpsertCompaniesRows(table, cs[..|cs| - 1], lowerNfd);
    }
  }

  /** The latest name of every id an item list names. */
  lemma {:induction false} LatestNameOfListed(cs: seq<ServiceDeskCompany>, i: nat)
    requires i < |cs|
    ensures LatestName(cs, cs[i].id).Some?
    decreases |cs|
  {
    if i < |cs| - 1 && cs[|cs| - 1].id != cs[i].id {
      LatestNameOfListed(cs[..|cs| - 1], i);
    }
  }

  /** An id with a latest name is named by some item. */
  lemma {:induction false} LatestNameIsListed(cs: seq<ServiceDeskCompany>, k: int)
    requires LatestName(cs, k).Some?
    ensures exists i :: 0 <= i < |cs| && cs[i].id == k
    decreases |cs|
  {
    if cs[|cs| - 1].id != k {
      var p := cs[..|cs| - 1];
      LatestNameIsListed(p, k);
      var i :| 0 <= i < |p| && p[i].id == k;
      assert cs[i] == p[i];
    }
  }

  /** A sync whose items all name existing rows creates none. */
  lemma CoveredKeysStay(table: CompanyTable, cs: seq<ServiceDeskCompany>, lowerNfd: string -> string)
    requires forall i :: 0 <= i < |cs| ==> cs[i].id in table.rows
    ensures UpsertCompanies(table, cs, lowerNfd).rows.Keys == table.rows.Keys
    ensures UpsertCompanies(table, cs, lowerNfd).activeByDefault == table.activeByDefault
  {
    UpsertCompaniesKeys(table, cs, lowerNfd);
    forall k | LatestName(cs, k).Some? ensures k in table.rows {
      LatestNameIsListed(cs, k);
    }
    assert UpsertCompanies(table, cs, lowerNfd).rows.Keys - table.rows.Keys == {};
  }

  /**
   * A sync over a table that already has a row for every item, each carrying
   * its latest name, changes no row; only the id sequence moves on.
   */
  lemma {:induction false} UpsertCompaniesOnCoveredTable(table: CompanyTable, cs: seq<ServiceDeskCompany>, lowerNfd: string -> string)
    requires KeyedByAutotaskId(table)
    requires forall i :: 0 <= i < |cs| ==> cs[i].id in table.rows
    requires forall k :: k in table.rows ==> RowAgrees(table.rows[k], cs, lowerNfd)
    ensures UpsertCompanies(table, cs, lowerNfd) == table.(nextId := table.nextId + |cs|)
  {
    if cs != [] {
      var p := cs[..|cs| - 1];
      var c := cs[|cs| - 1];
      var t := UpsertCompanies(table, p, lowerNfd);
      assert forall i :: 0 <= i < |p| ==> p[i] == cs[i];
      CoveredKeysStay(table, p, lowerNfd);
      UpsertCompaniesRows(table, p, lowerNfd);
      UpsertCompaniesNextId(table, p, lowerNfd);
      // Before the last upsert, every row other than c.id's already equals the original.
      forall k | k in t.rows && k != c.id ensures t.rows[k] == table.rows[k] {
        assert SameIdentity(t.rows[k], table.rows[k]);
        assert LatestName(cs, k) == LatestName(p, k);
      }
      var r := t.rows[c.id];
      assert SameIdentity(r, table.rows[c.id]);
      assert r.(name := c.companyName, nameNormalized := NormalizeString(c.companyName, lowerNfd)) == table.rows[c.id];
      assert t.rows[c.id := table.rows[c.id]] == table.rows;
    }
  }

  /**
   * Running the company sync twice on the same answer leaves the same rows as
   * running it once; the second run only moves the id sequence on.
   */
  lemma CompanySyncIdempotent(table: CompanyTable, cs: seq<ServiceDeskCompany>, lowerNfd: string -> string)
    requires KeyedByAutotaskId(table)
    ensures var once := UpsertCompanies(table, cs, lowerNfd);
      UpsertCompanies(once, cs, lowerNfd) == once.(nextId := once.nextId + |cs|)
  {
    UpsertCompaniesKeys(table, cs, lowerNfd);
    UpsertCompaniesRows(table, cs, lowerNfd);
    var once := UpsertCompanies(table, cs, lowerNfd);
    forall i | 0 <= i < |cs| ensures cs[i].id in once.rows {
      LatestNameOfListed(cs, i);
    }
    UpsertCompaniesOnCoveredTable(once, cs, lowerNfd);
  }

  /** The store rejecting the upsert at `position` with `message`. */
  datatype StoreFailure = StoreFailure(position: nat, message: string)

  datatype SyncOutcome = Completed | Logged(error: string)

  /**
   * `syncCompaniesFromAutotask`: upsert each company of the answer in
   * order. `storeFails` is the upsert the store rejects, if any. Errors are
   * logged and swallowed, never rethrown; upserts already made remain.
   */
  method SyncCompaniesFromAutotask(
    table: CompanyTable, response: CompaniesResponse, lowerNfd: string -> string, storeFails: Option<StoreFailure>)
    returns (result: CompanyTable, outcome: SyncOutcome)
    ensures response.CompaniesFailed? ==> result == table && outcome == Logged(response.message)
    ensures response.CompaniesReceived? ==>
      var cs := if response.items.Some? then response.items.value else [];
      if storeFails.Some? && storeFails.value.position < |cs| then
        result == UpsertCompanies(table, cs[..storeFails.value.position], lowerNfd) &&
        outcome == Logged(storeFails.value.message)
      else
        result == UpsertCompanies(table, cs, lowerNfd) && outcome == Completed
  {
    if response.CompaniesFailed? {
      return table, Logged(response.message);
    }
    var companies := if response.items.Some? then response.items.value else [];
    result := table;
    var i := 0;
    while i < |companies|
      invariant 0 <= i <= |companies|
      invariant result == UpsertCompanies(table, companies[..i], lowerNfd)
      invariant storeFails.Some? ==> storeFails.value.position >= i
    {
      var company := companies[i];
      var normalized := NormalizeString(company.companyName, lowerNfd);
      if storeFails.Some? && storeFails.value.position == i {
        return result, Logged(storeFails.value.message);
      }
      if company.id in result.rows {
        result := result.(
          rows := result.rows[company.id := result.rows[company.id].(name := company.companyName, nameNormalized := normalized)],
          nextId := result.nextId + 1);
      } else {
        result := result.(
          rows := result.rows[company.id := CompanyRow(result.nextId, company.id, company.companyName, normalized, result.activeByDefault)],
          nextId := result.nextId + 1);
      }
      assert companies[..i + 1][..i] == companies[..i];
      i := i + 1;
    }
    assert companies[..i] == companies;
    outcome := Completed;
  }
}
