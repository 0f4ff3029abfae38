/** Keyset paging: reading a list newest first, page by page, while rows come and go. */
module Paging {
  import opened Wrappers
  import opened Int64
  import opened Cursor
  import opened Sets

  /** The database's row comparison: time first, identifier second. */
  predicate Below(a: Key, b: Key) {
    a.at < b.at || (a.at == b.at && a.id < b.id)
  }

  predicate Descending(s: seq<Key>) {
    forall i, j :: 0 <= i < j < |s| ==> Below(s[j], s[i])
  }

  // ----- The query

  /** The rows a cursor still admits; no cursor admits all. */
  function Admitted(table: set<Key>, from: Option<Key>): set<Key> {
    set k | k in table && (from.None? || Below(k, from.value))
  }

  ghost predicate IsNewest(k: Key, s: set<Key>) {
    k in s && forall other :: other in s && other != k ==> Below(other, k)
  }

  lemma {:induction false} NewestExists(s: set<Key>)
    requires s != {}
    ensures exists k :: IsNewest(k, s)
  {
    var k :| k in s;
    if s - {k} == {} {
      assert s == {k};
      assert IsNewest(k, s);
    } else {
      NewestExists(s - {k});
      var top :| IsNewest(top, s - {k});
      if Below(k, top) {
        assert IsNewest(top, s);
      } else {
        forall other | other in s && other != k ensures Below(other, k) {
          assert other == top || Below(other, top);
          assert Below(top, k);
        }
        assert IsNewest(k, s);
      }
    }
  }

  /** ORDER BY time DESC, id DESC. */
  ghost function Sorted(s: set<Key>): seq<Key> {
    if s == {} then []
    else
      NewestExists(s);
      var k :| IsNewest(k, s);
      [k] + Sorted(s - {k})
  }

  lemma {:induction false} SortedIsSorted(s: set<Key>)
    ensures Descending(Sorted(s)) && (forall k :: k in Sorted(s) <==> k in s) && |Sorted(s)| == |s|
  {
    if s != {} {
      NewestExists(s);
      var k :| IsNewest(k, s) && Sorted(s) == [k] + Sorted(s - {k});
      SortedIsSorted(s - {k});
    }
  }

  lemma SomeMember(s: seq<Key>)
    ensures s == [] || exists k :: k in s
  {
    if s != [] {
      assert s[0] in s;
    }
  }

  /** The same rows in the same order are the same sequence. */
  lemma {:induction false} DescendingUnique(s: seq<Key>, r: seq<Key>)
    requires Descending(s) && Descending(r) && forall k :: k in s <==> k in r
    ensures s == r
  {
    if s == [] {
      SomeMember(r);
    } else {
      assert s[0] in r && (r != [] ==> r[0] in s);
      assert s[0] == r[0];
      Tails(s, r);
      DescendingUnique(s[1..], r[1..]);
    }
  }

  lemma Tails(s: seq<Key>, r: seq<Key>)
    requires Descending(s) && Descending(r) && s != [] && r != [] && s[0] == r[0]
    requires forall k :: k in s <==> k in r
    ensures forall k :: k in s[1..] <==> k in r[1..]
  {
    forall k ensures k in s[1..] <==> k in r[1..] {
      if k in s[1..] {
        assert k in s && k != s[0];
      }
      if k in r[1..] {
        assert k in r && k != r[0];
      }
    }
  }

  // ----- One request

  /** What a list answers with: the rows, and the cursor to continue from when there are more. */
  datatype Page = Page(items: seq<Key>, next: Option<string>)

  /** The query asks for one row more than the page holds; that row only says that there is a next page. */
  function PageResult(rows: seq<Key>, limit: nat): Page
    requires 1 <= limit
  {
    if |rows| <= limit then Page(rows, None) else Page(rows[..limit], Some(EncodeCursor(rows[limit - 1])))
  }

  /** A request with a missing or unreadable cursor starts from the newest row. */
  ghost function Fetch(table: set<Key>, raw: string, limit: nat): Page
    requires 1 <= limit
  {
    var rows := Sorted(Admitted(table, DecodeCursor(raw)));
    PageResult(rows[..Least(|rows|, limit + 1)], limit)
  }

  /** What a request starting at `from` comes back with. */
  ghost predicate Serves(page: Page, table: set<Key>, from: Option<Key>, limit: nat)
    requires 1 <= limit
  {
    && Descending(page.items) && |page.items| <= limit
    && (forall k :: k in page.items ==> k in Admitted(table, from))
    && (page.next.None? ==> forall k :: k in Admitted(table, from) ==> k in page.items)
    && (page.next.Some? ==>
          && |page.items| == limit
          && DecodeCursor(page.next.value) == Some(page.items[|page.items| - 1])
          && (forall k :: k in Admitted(table, from) && !Below(k, page.items[|page.items| - 1]) ==> k in page.items))
  }

  predicate AllStorable(table: set<Key>) {
    forall k :: k in table ==> Storable(k)
  }

  lemma PageServes(rows: seq<Key>, table: set<Key>, from: Option<Key>, limit: nat)
    requires 1 <= limit < |rows| && Descending(rows) && forall k :: k in rows <==> k in Admitted(table, from)
    requires Storable(rows[limit - 1])
    ensures Serves(Page(rows[..limit], Some(EncodeCursor(rows[limit - 1]))), table, from, limit)
  {
    var items, last := rows[..limit], rows[limit - 1];
    CursorRoundTrip(last);
    assert items[|items| - 1] == last;
    forall k | k in items ensures k in Admitted(table, from) {
      assert k in rows;
    }
    forall k | k in Admitted(table, from) && !Below(k, last) ensures k in items {
      var i :| 0 <= i < |rows| && rows[i] == k;
      assert i < limit;
    }
  }

  lemma LastPageServes(rows: seq<Key>, table: set<Key>, from: Option<Key>, limit: nat)
    requires 1 <= limit && |rows| <= limit && Descending(rows) && forall k :: k in rows <==> k in Admitted(table, from)
    ensures Serves(Page(rows, None), table, from, limit)
  {
  }

  lemma PageOf(rows: seq<Key>, limit: nat)
    requires 1 <= limit
    ensures PageResult(rows[..Least(|rows|, limit + 1)], limit)
         == if |rows| <= limit then Page(rows, None) else Page(rows[..limit], Some(EncodeCursor(rows[limit - 1])))
  {
    if |rows| <= limit {
      assert rows[..|rows|] == rows;
    } else {
      assert rows[..limit + 1][..limit] == rows[..limit];
    }
  }

  lemma FetchParts(table: set<Key>, raw: string, limit: nat)
    requires 1 <= limit
    ensures
      var rows := Sorted(Admitted(table, DecodeCursor(raw)));
      Fetch(table, raw, limit)
      == if |rows| <= limit then Page(rows, None) else Page(rows[..limit], Some(EncodeCursor(rows[limit - 1])))
  {
    PageOf(Sorted(Admitted(table, DecodeCursor(raw))), limit);
  }

  /** A page holds the newest admitted rows, nothing is skipped above its last row, and its cursor reads
      back as that row. */
  lemma FetchServes(table: set<Key>, raw: string, limit: nat)
    requires 1 <= limit && AllStorable(table)
    ensures Serves(Fetch(table, raw, limit), table, DecodeCursor(raw), limit)
  {
    var rows := Sorted(Admitted(table, DecodeCursor(raw)));
    SortedIsSorted(Admitted(table, DecodeCursor(raw)));
    FetchParts(table, raw, limit);
    if |rows| <= limit {
      LastPageServes(rows, table, DecodeCursor(raw), limit);
    } else {
      assert rows[limit - 1] in rows;
      PageServes(rows, table, DecodeCursor(raw), limit);
    }
  }

  /** Newest first, and the later identifier first among rows of one instant; a page is full unless the list ends, and
      has a cursor exactly if there is more. */
  lemma PageIsNewestFirst(table: set<Key>, raw: string, limit: nat)
    requires 1 <= limit
    ensures
      var page, admitted := Fetch(table, raw, limit), Admitted(table, DecodeCursor(raw));
      && (forall i, j :: 0 <= i < j < |page.items| ==>
            || page.items[i].at > page.items[j].at
            || (page.items[i].at == page.items[j].at && page.items[i].id > page.items[j].id))
      && |page.items| == Least(limit, |admitted|) && (page.next.Some? <==> |admitted| > limit)
  {
    SortedIsSorted(Admitted(table, DecodeCursor(raw)));
    FetchParts(table, raw, limit);
  }

  // ----- Reading page after page

  /** The rows a reader sees who follows the cursors; `tables[i]` is what the filter lets through at the i-th
      request. Orders arrive in between and, as their states change, enter and leave a filtered list. */
  ghost function Walk(tables: seq<set<Key>>, raw: string, limit: nat): seq<Key>
    requires 1 <= limit
  {
    if tables == [] then []
    else
      var page := Fetch(tables[0], raw, limit);
      if page.next.None? then page.items else page.items + Walk(tables[1..], page.next.value, limit)
  }

  /** Whether the cursor becomes null within these requests. */
  ghost predicate Finishes(tables: seq<set<Key>>, raw: string, limit: nat)
    requires 1 <= limit
  {
    && tables != []
    && var page := Fetch(tables[0], raw, limit);
    && (page.next.Some? ==> Finishes(tables[1..], page.next.value, limit))
  }

  predicate EachStorable(tables: seq<set<Key>>) {
    forall i :: 0 <= i < |tables| ==> AllStorable(tables[i])
  }

  predicate EverListed(tables: seq<set<Key>>, k: Key) {
    exists i :: 0 <= i < |tables| && k in tables[i]
  }

  predicate AlwaysListed(tables: seq<set<Key>>, k: Key) {
    forall i :: 0 <= i < |tables| ==> k in tables[i]
  }

  lemma ListedLater(tables: seq<set<Key>>, k: Key)
    requires tables != [] && EverListed(tables[1..], k)
    ensures EverListed(tables, k)
  {
    var i :| 0 <= i < |tables[1..]| && k in tables[1..][i];
    assert k in tables[i + 1];
  }

  lemma DescendingJoin(s: seq<Key>, r: seq<Key>)
    requires Descending(s) && Descending(r) && (s != [] ==> forall k :: k in r ==> Below(k, s[|s| - 1]))
    ensures Descending(s + r)
  {
    forall i, j | 0 <= i < j < |s + r| ensures Below((s + r)[j], (s + r)[i]) {
      if i < |s| <= j {
        assert r[j - |s|] in r;
        assert i < |s| - 1 ==> Below(s[|s| - 1], s[i]);
      }
    }
  }

  lemma PageIsListed(tables: seq<set<Key>>, raw: string, limit: nat, k: Key)
    requires 1 <= limit && EachStorable(tables) && tables != [] && k in Fetch(tables[0], raw, limit).items
    ensures EverListed(tables, k) && (DecodeCursor(raw).Some? ==> Below(k, DecodeCursor(raw).value))
  {
    FetchServes(tables[0], raw, limit);
    assert k in tables[0];
  }

  /** The rows behind a page are below its last row. */
  lemma PageThenRest(page: Page, table: set<Key>, from: Option<Key>, limit: nat, rest: seq<Key>)
    requires 1 <= limit && Serves(page, table, from, limit) && page.next.Some? && Descending(rest)
    requires forall k :: k in rest ==> Below(k, DecodeCursor(page.next.value).value)
    ensures Descending(page.items + rest)
    ensures from.Some? ==> forall k :: k in rest ==> Below(k, from.value)
  {
    DescendingJoin(page.items, rest);
    assert page.items[|page.items| - 1] in page.items;
  }

  /** Whatever comes and goes in between, no row is ever returned twice, every row returned was listed when it
      was, and the whole read is in order. */
  lemma {:induction false} WalkNeverRepeats(tables: seq<set<Key>>, raw: string, limit: nat)
    requires 1 <= limit && EachStorable(tables)
    ensures Descending(Walk(tables, raw, limit))
    ensures forall k :: k in Walk(tables, raw, limit) ==>
      EverListed(tables, k) && (DecodeCursor(raw).Some? ==> Below(k, DecodeCursor(raw).value))
  {
    if tables != [] {
      FetchServes(tables[0], raw, limit);
      var page := Fetch(tables[0], raw, limit);
      forall k | k in page.items
        ensures EverListed(tables, k) && (DecodeCursor(raw).Some? ==> Below(k, DecodeCursor(raw).value))
      {
        PageIsListed(tables, raw, limit, k);
      }
      if page.next.Some? {
        var rest := Walk(tables[1..], page.next.value, limit);
        WalkNeverRepeats(tables[1..], page.next.value, limit);
        PageThenRest(page, tables[0], DecodeCursor(raw), limit, rest);
        forall k | k in rest ensures EverListed(tables, k) {
          ListedLater(tables, k);
        }
      }
    }
  }

  /** Every row that was listed all the while, and that the starting cursor admits, has been returned by the
      time the cursor becomes null. */
  lemma {:induction false} WalkMissesNothing(tables: seq<set<Key>>, raw: string, limit: nat, k: Key)
    requires 1 <= limit && EachStorable(tables) && Finishes(tables, raw, limit)
    requires AlwaysListed(tables, k) && (DecodeCursor(raw).Some? ==> Below(k, DecodeCursor(raw).value))
    ensures k in Walk(tables, raw, limit)
  {
    FetchServes(tables[0], raw, limit);
    var page := Fetch(tables[0], raw, limit);
    assert k in Admitted(tables[0], DecodeCursor(raw));
    if page.next.Some? && k !in page.items {
      WalkMissesNothing(tables[1..], page.next.value, limit, k);
    }
  }

  /** When the list does not change, the pages put together are the sorted list. */
  lemma PagesConcatenate(table: set<Key>, tables: seq<set<Key>>, limit: nat)
    requires 1 <= limit && AllStorable(table) && Finishes(tables, "", limit)
    requires forall i :: 0 <= i < |tables| ==> tables[i] == table
    ensures Walk(tables, "", limit) == Sorted(table)
  {
    var walk := Walk(tables, "", limit);
    assert Trimmed("") == "";
    WalkNeverRepeats(tables, "", limit);
    SortedIsSorted(table);
    forall k ensures k in walk <==> k in table {
      if k in table {
        WalkMissesNothing(tables, "", limit, k);
      }
    }
    DescendingUnique(walk, Sorted(table));
  }

  /** And the cursor does become null: a table of `n` rows takes at most `n` requests after the first. */
  lemma {:induction false} ReadingEnds(table: set<Key>, tables: seq<set<Key>>, raw: string, limit: nat)
    requires 1 <= limit && AllStorable(table) && forall i :: 0 <= i < |tables| ==> tables[i] == table
    requires |tables| > |Admitted(table, DecodeCursor(raw))|
    ensures Finishes(tables, raw, limit)
    decreases |tables|
  {
    FetchServes(table, raw, limit);
    var page := Fetch(table, raw, limit);
    if page.next.Some? {
      AdmitsFewer(page, table, DecodeCursor(raw), limit);
      ReadingEnds(table, tables[1..], page.next.value, limit);
    }
  }

  lemma AdmitsFewer(page: Page, table: set<Key>, from: Option<Key>, limit: nat)
    requires 1 <= limit && Serves(page, table, from, limit) && page.next.Some?
    ensures |Admitted(table, DecodeCursor(page.next.value))| < |Admitted(table, from)|
  {
    var last := page.items[|page.items| - 1];
    assert last in page.items;
    var here, there := Admitted(table, from), Admitted(table, Some(last));
    forall k | k in there ensures k in here - {last} {
      assert Below(k, last) && last in here;
    }
    FewerElements(there, here - {last});
  }

  /** A cursor nobody issued is not an error: the reader simply starts over. */
  lemma BrokenCursorStartsOver(table: set<Key>, raw: string, limit: nat)
    requires 1 <= limit && DecodeCursor(raw).None?
    ensures Fetch(table, raw, limit) == Fetch(table, "", limit)
  {
    assert Trimmed("") == "";
  }
}
