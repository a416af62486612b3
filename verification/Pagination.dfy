/** Keyset pagination: one strict order for every list, page by page, while rows arrive. */
module Pagination {
  import opened Common
  import opened Ordering

  // ---------------------------------------------------------------- the filter of one page

  predicate Precedes(a: Key, b: Key, desc: bool) {
    if desc then KeyLess(b, a) else KeyLess(a, b)
  }

  /** The filter of a list keyed by (created_at, identity), written out as the query does. */
  predicate AfterPair(createdAt: int, id: string, at: int, key: string, desc: bool) {
    if desc then createdAt < at || (createdAt == at && TextLess(id, key))
    else createdAt > at || (createdAt == at && TextLess(key, id))
  }

  /** The filter of a list keyed by (created_at, name, revision). */
  predicate AfterTriple(createdAt: int, name: string, revision: int, at: int, key: string, number: int) {
    || createdAt > at
    || (createdAt == at && TextLess(key, name))
    || (createdAt == at && name == key && revision > number)
  }

  /** Both filters are comparison of tuples in the order of the list. */
  lemma FiltersAreTupleOrder(createdAt: int, name: string, revision: int, at: int, key: string, number: int, desc: bool)
    ensures AfterPair(createdAt, name, at, key, desc)
            <==> Precedes([Num(at), Text(key)], [Num(createdAt), Text(name)], desc)
    ensures AfterTriple(createdAt, name, revision, at, key, number)
            <==> KeyLess([Num(at), Text(key), Num(number)], [Num(createdAt), Text(name), Num(revision)])
  {
    TextTotal(key, name);
    PairOrder(Num(at), Text(key), Num(createdAt), Text(name));
    PairOrder(Num(createdAt), Text(name), Num(at), Text(key));
    TripleOrder(Num(at), Text(key), Num(number), Num(createdAt), Text(name), Num(revision));
  }

  lemma PairOrder(a: Field, b: Field, c: Field, d: Field)
    ensures KeyLess([a, b], [c, d]) <==> FieldLess(a, c) || (a == c && FieldLess(b, d))
  {
    assert [a, b][1..] == [b] && [c, d][1..] == [d];
    assert KeyLess([b], [d]) <==> FieldLess(b, d) by {
      assert [b][1..] == [] && [d][1..] == [];
    }
  }

  lemma TripleOrder(a: Field, b: Field, e: Field, c: Field, d: Field, f: Field)
    ensures KeyLess([a, b, e], [c, d, f])
            <==> FieldLess(a, c) || (a == c && (FieldLess(b, d) || (b == d && FieldLess(e, f))))
  {
    assert [a, b, e][1..] == [b, e] && [c, d, f][1..] == [d, f];
    PairOrder(b, e, d, f);
  }

  // ---------------------------------------------------------------- one page

  predicate Beyond(k: Key, cursor: Option<Key>, desc: bool) {
    cursor.Some? ==> Precedes(cursor.value, k, desc)
  }

  /** The rows a page may hold: those past the cursor. */
  function Window(keys: set<Key>, cursor: Option<Key>, desc: bool): set<Key> {
    set k | k in keys && Beyond(k, cursor, desc)
  }

  function Reversed(keys: seq<Key>): (r: seq<Key>)
    ensures |r| == |keys|
    ensures forall i :: 0 <= i < |r| ==> r[i] == keys[|keys| - 1 - i]
  {
    seq(|keys|, i requires 0 <= i < |keys| => keys[|keys| - 1 - i])
  }

  /** ORDER BY in either direction. */
  function Listed(keys: set<Key>, desc: bool): seq<Key> {
    if desc then Reversed(SortedKeys(keys)) else SortedKeys(keys)
  }

  datatype Page = Page(items: seq<Key>, next: Option<Key>)

  /** A page: at most `limit` rows past the cursor, and the last of them as the next cursor when
      there was one more row to fetch. */
  function PageOf(keys: set<Key>, cursor: Option<Key>, limit: int, desc: bool): Page
    requires 1 <= limit
  {
    var rows := Listed(Window(keys, cursor, desc), desc);
    var fetched := if limit + 1 < |rows| then rows[..limit + 1] else rows;
    var items := if limit < |fetched| then fetched[..limit] else fetched;
    Page(items, if limit < |fetched| then Some(items[limit - 1]) else None)
  }

  predicate StrictlyListed(items: seq<Key>, desc: bool) {
    forall i, j :: 0 <= i < j < |items| ==> Precedes(items[i], items[j], desc)
  }

  lemma ListedStrictly(keys: set<Key>, desc: bool)
    ensures StrictlyListed(Listed(keys, desc), desc)
    ensures |Listed(keys, desc)| == |keys|
    ensures forall k :: k in Listed(keys, desc) <==> k in keys
  {
    var sorted := SortedKeys(keys);
    if desc {
      var r := Listed(keys, desc);
      forall k
        ensures k in r <==> k in keys
      {
        if k in keys {
          var i :| 0 <= i < |sorted| && sorted[i] == k;
          assert r[|sorted| - 1 - i] == k;
        }
        if k in r {
          var i :| 0 <= i < |r| && r[i] == k;
          assert sorted[|sorted| - 1 - i] == k;
          assert k in sorted;
        }
      }
    }
  }

  /** A strictly ordered listing of a set is the listing of it. */
  lemma ListedUnique(keys: set<Key>, desc: bool, items: seq<Key>)
    requires StrictlyListed(items, desc) && forall k :: k in items <==> k in keys
    ensures items == Listed(keys, desc)
  {
    ListedStrictly(keys, desc);
    var sorted := SortedKeys(keys);
    if desc {
      var r := Reversed(items);
      forall k
        ensures k in r <==> k in sorted
      {
        if k in items {
          var i :| 0 <= i < |items| && items[i] == k;
          assert r[|items| - 1 - i] == k;
        }
        if k in r {
          var i :| 0 <= i < |r| && r[i] == k;
          assert items[|items| - 1 - i] == k;
        }
      }
      AscendingUnique(r, sorted);
      assert items == Reversed(r);
    } else {
      AscendingUnique(items, sorted);
    }
  }

  lemma PrecedesTotal(a: Key, b: Key, desc: bool)
    ensures Precedes(a, b, desc) || a == b || Precedes(b, a, desc)
    ensures !(Precedes(a, b, desc) && Precedes(b, a, desc))
    ensures !Precedes(a, a, desc)
  {
    KeyTotal(a, b);
    KeyTotal(a, a);
  }

  lemma PrecedesTransitive(a: Key, b: Key, c: Key, desc: bool)
    requires Precedes(a, b, desc) && Precedes(b, c, desc)
    ensures Precedes(a, c, desc)
  {
    if desc {
      KeyTransitive(c, b, a);
    } else {
      KeyTransitive(a, b, c);
    }
  }

  /** What one page holds and what it leaves: exactly the first rows past the cursor, in order;
      without a next cursor nothing is left, with one exactly the rows past it are. */
  lemma PageIsPrefix(keys: set<Key>, cursor: Option<Key>, limit: int, desc: bool)
    requires 1 <= limit
    ensures
      var p := PageOf(keys, cursor, limit, desc);
      var window := Window(keys, cursor, desc);
      && StrictlyListed(p.items, desc)
      && |p.items| == Min(limit, |window|)
      && (forall k :: k in p.items ==> k in window)
      && (p.next.None? <==> |window| <= limit)
      && (p.next.None? ==> forall k :: k in window ==> k in p.items)
      && (p.next.Some? ==>
            && p.next.value == p.items[limit - 1]
            && forall k :: k in window ==> (k in p.items <==> !Precedes(p.next.value, k, desc)))
  {
    hide Precedes, SortedKeys;
    var window := Window(keys, cursor, desc);
    var rows := Listed(window, desc);
    ListedStrictly(window, desc);
    var p := PageOf(keys, cursor, limit, desc);
    assert p.items == rows[..Min(limit, |rows|)];
    forall k | k in p.items
      ensures k in window
    {
      assert k in rows;
    }
    if p.next.Some? {
      forall k | k in window
        ensures k in p.items <==> !Precedes(p.next.value, k, desc)
      {
        var i :| 0 <= i < |rows| && rows[i] == k;
        PrecedesTotal(rows[limit - 1], k, desc);
        if i < limit {
          assert p.items[i] == k;
        } else {
          forall j | 0 <= j < |p.items|
            ensures p.items[j] != k
          {
            PrecedesTotal(rows[j], rows[i], desc);
          }
        }
      }
    }
  }

  // ---------------------------------------------------------------- following the cursor

  /** One request: the rows there are when it is served, and the page limit it asks for. */
  datatype Fetch = Fetch(keys: set<Key>, limit: int)

  predicate ValidFetches(fetches: seq<Fetch>) {
    forall i :: 0 <= i < |fetches| ==> 1 <= fetches[i].limit
  }

  /** Rows are only ever added. */
  predicate Growing(fetches: seq<Fetch>) {
    forall i, j :: 0 <= i < j < |fetches| ==> fetches[i].keys <= fetches[j].keys
  }

  function Walk(fetches: seq<Fetch>, cursor: Option<Key>, desc: bool): seq<Page>
    requires ValidFetches(fetches)
    decreases |fetches|
  {
    if fetches == [] then []
    else
      var p := PageOf(fetches[0].keys, cursor, fetches[0].limit, desc);
      if p.next.None? then [p] else [p] + Walk(fetches[1..], p.next, desc)
  }

  function Items(pages: seq<Page>): seq<Key> {
    if pages == [] then [] else pages[0].items + Items(pages[1..])
  }

  /** The walk came to a page without a next cursor. */
  predicate Finished(pages: seq<Page>) {
    pages != [] && pages[|pages| - 1].next.None?
  }

  lemma JoinStrictly(a: seq<Key>, b: seq<Key>, desc: bool)
    requires StrictlyListed(a, desc) && StrictlyListed(b, desc)
    requires a != [] && forall k :: k in b ==> Precedes(a[|a| - 1], k, desc)
    ensures StrictlyListed(a + b, desc)
  {
    hide Precedes;
    var c := a + b;
    forall i, j | 0 <= i < j < |c|
      ensures Precedes(c[i], c[j], desc)
    {
      if j >= |a| {
        assert c[j] in b;
        if i < |a| - 1 {
          PrecedesTransitive(a[i], a[|a| - 1], c[j], desc);
        } else if i >= |a| {
          assert c[i] == b[i - |a|] && c[j] == b[j - |a|];
        }
      }
    }
  }

  /** Pages are in one strict order across the whole walk, past the cursor it started from. */
  lemma {:induction false} WalkOrdered(fetches: seq<Fetch>, cursor: Option<Key>, desc: bool)
    requires ValidFetches(fetches)
    ensures StrictlyListed(Items(Walk(fetches, cursor, desc)), desc)
    ensures forall k :: k in Items(Walk(fetches, cursor, desc)) ==> Beyond(k, cursor, desc)
    decreases |fetches|
  {
    hide Precedes, PageOf;
    if fetches != [] {
      var p := PageOf(fetches[0].keys, cursor, fetches[0].limit, desc);
      PageIsPrefix(fetches[0].keys, cursor, fetches[0].limit, desc);
      if p.next.None? {
        assert Items([p]) == p.items + Items([]);
      } else {
        WalkOrdered(fetches[1..], p.next, desc);
        var rest := Walk(fetches[1..], p.next, desc);
        assert ([p] + rest)[1..] == rest;
        JoinStrictly(p.items, Items(rest), desc);
        forall k | k in Items(rest)
          ensures Beyond(k, cursor, desc)
        {
          assert p.next.value in p.items;
          if cursor.Some? {
            PrecedesTransitive(cursor.value, p.next.value, k, desc);
          }
        }
      }
    }
  }

  /** No row is repeated, whatever arrived between pages. */
  lemma WalkNeverRepeats(fetches: seq<Fetch>, cursor: Option<Key>, desc: bool, i: int, j: int)
    requires ValidFetches(fetches)
    requires
      var items := Items(Walk(fetches, cursor, desc));
      0 <= i < |items| && 0 <= j < |items| && items[i] == items[j]
    ensures i == j
  {
    WalkOrdered(fetches, cursor, desc);
    var items := Items(Walk(fetches, cursor, desc));
    PrecedesTotal(items[i], items[j], desc);
  }

  /** A finished walk holds every row that was there at the start, past its cursor, however many
      rows were inserted between pages and wherever. */
  lemma {:induction false} WalkComplete(fetches: seq<Fetch>, cursor: Option<Key>, desc: bool, k: Key)
    requires ValidFetches(fetches) && Growing(fetches) && fetches != []
    requires Finished(Walk(fetches, cursor, desc))
    requires k in Window(fetches[0].keys, cursor, desc)
    ensures k in Items(Walk(fetches, cursor, desc))
    decreases |fetches|
  {
    hide Precedes, PageOf;
    var p := PageOf(fetches[0].keys, cursor, fetches[0].limit, desc);
    PageIsPrefix(fetches[0].keys, cursor, fetches[0].limit, desc);
    if p.next.None? {
      assert Items([p]) == p.items + Items([]);
    } else {
      var rest := Walk(fetches[1..], p.next, desc);
      assert ([p] + rest)[1..] == rest;
      if k !in p.items {
        assert rest != [] && ([p] + rest)[|rest|] == rest[|rest| - 1];
        assert fetches[1..] != [] && fetches[1..][0].keys == fetches[1].keys;
        assert Growing(fetches[1..]) by {
          forall i, j | 0 <= i < j < |fetches[1..]| ensures fetches[1..][i].keys <= fetches[1..][j].keys {
            assert fetches[i + 1].keys <= fetches[j + 1].keys;
          }
        }
        assert fetches[0].keys <= fetches[1].keys;
        WalkComplete(fetches[1..], p.next, desc, k);
      }
    }
  }

  function TotalLimit(fetches: seq<Fetch>): int {
    if fetches == [] then 0 else fetches[0].limit + TotalLimit(fetches[1..])
  }

  lemma WindowSplit(keys: set<Key>, cursor: Option<Key>, limit: int, desc: bool)
    requires 1 <= limit && PageOf(keys, cursor, limit, desc).next.Some?
    ensures
      var p := PageOf(keys, cursor, limit, desc);
      && Window(keys, cursor, desc) == Window(keys, p.next, desc) + (set k | k in p.items)
      && |Window(keys, p.next, desc)| == |Window(keys, cursor, desc)| - limit
  {
    hide Precedes, PageOf;
    PageIsPrefix(keys, cursor, limit, desc);
    var p := PageOf(keys, cursor, limit, desc);
    var window, rest := Window(keys, cursor, desc), Window(keys, p.next, desc);
    assert p.next.value in p.items;
    forall k
      ensures k in window <==> k in rest || k in p.items
    {
      if k in rest && cursor.Some? {
        PrecedesTransitive(cursor.value, p.next.value, k, desc);
      }
    }
    var taken := set k | k in p.items;
    assert rest * taken == {};
    assert window == rest + taken;
    DistinctItems(p.items, desc);
  }

  lemma {:induction false} DistinctItems(items: seq<Key>, desc: bool)
    requires StrictlyListed(items, desc)
    ensures |set k | k in items| == |items|
    decreases |items|
  {
    hide Precedes;
    if items != [] {
      DistinctItems(items[1..], desc);
      forall k | k in items[1..]
        ensures k != items[0]
      {
        PrecedesTotal(items[0], k, desc);
      }
      assert (set k | k in items) == (set k | k in items[1..]) + {items[0]};
    }
  }

  /** On a table that stays as it is, once the limits asked for add up to the rows there are, the
      walk has come to its end, and together its pages are the ordered table. */
  lemma {:induction false} WalkOfFixedTable(fetches: seq<Fetch>, keys: set<Key>, cursor: Option<Key>, desc: bool)
    requires ValidFetches(fetches) && fetches != []
    requires forall i :: 0 <= i < |fetches| ==> fetches[i].keys == keys
    requires |Window(keys, cursor, desc)| <= TotalLimit(fetches)
    ensures Finished(Walk(fetches, cursor, desc))
    ensures Items(Walk(fetches, cursor, desc)) == Listed(Window(keys, cursor, desc), desc)
    decreases |fetches|
  {
    hide Precedes, PageOf, Listed;
    var window := Window(keys, cursor, desc);
    var p := PageOf(keys, cursor, fetches[0].limit, desc);
    PageIsPrefix(keys, cursor, fetches[0].limit, desc);
    var items := Items(Walk(fetches, cursor, desc));
    WalkOrdered(fetches, cursor, desc);
    if p.next.None? {
      assert Items([p]) == p.items + Items([]);
    } else {
      WindowSplit(keys, cursor, fetches[0].limit, desc);
      var rest := Walk(fetches[1..], p.next, desc);
      WalkOfFixedTable(fetches[1..], keys, p.next, desc);
      assert ([p] + rest)[1..] == rest && ([p] + rest)[|rest|] == rest[|rest| - 1];
      ListedStrictly(Window(keys, p.next, desc), desc);
      forall k
        ensures k in items <==> k in window
      {
        assert k in items <==> k in p.items || k in Items(rest);
      }
    }
    ListedUnique(window, desc, items);
  }

  // ---------------------------------------------------------------- lists that are stored in order

  /** The same page cut from rows already in order, as the cases of one decision are. */
  function Filtered(rows: seq<Key>, cursor: Option<Key>): seq<Key> {
    if rows == [] then []
    else (if Beyond(rows[0], cursor, false) then [rows[0]] else []) + Filtered(rows[1..], cursor)
  }

  lemma {:induction false} FilteredMembers(rows: seq<Key>, cursor: Option<Key>)
    requires Ascending(rows)
    ensures Ascending(Filtered(rows, cursor))
    ensures forall k :: k in Filtered(rows, cursor) <==> k in rows && Beyond(k, cursor, false)
    decreases |rows|
  {
    hide Beyond;
    if rows != [] {
      var rest := Filtered(rows[1..], cursor);
      FilteredMembers(rows[1..], cursor);
      forall j | 0 <= j < |rest|
        ensures KeyLess(rows[0], rest[j])
      {
        assert rest[j] in rest;
        var i :| 0 <= i < |rows[1..]| && rows[1..][i] == rest[j];
      }
    }
  }

  /** Filtering stored rows gives the listing of their window, so such a list pages like a table. */
  lemma StoredRowsPage(rows: seq<Key>, cursor: Option<Key>)
    requires Ascending(rows)
    ensures Filtered(rows, cursor) == Listed(Window((set k | k in rows), cursor, false), false)
  {
    FilteredMembers(rows, cursor);
    ListedUnique(Window((set k | k in rows), cursor, false), false, Filtered(rows, cursor));
  }
}
