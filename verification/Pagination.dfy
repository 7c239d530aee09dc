/**
 * Keyset pagination of a user's attendance, from backend/src/attendance/attendance.service.ts. The
 * column is a database timestamp in microseconds; the cursor carries the ISO form, in milliseconds.
 */
module Pagination {
  import opened Common

  datatype Record = Record(id: nat, user: nat, at: nat)

  datatype Cursor = Cursor(millis: nat, id: nat)

  datatype Token = Encoded(cursor: Cursor) | Malformed

  datatype Page = Page(data: seq<Record>, nextCursor: Option<Cursor>, hasMore: bool)

  datatype Error = InvalidCursor

  // ---------------------------------------------------------------- the query

  /** ORDER BY timestamp DESC, id DESC. */
  predicate Precedes(a: Record, b: Record) { a.at > b.at || (a.at == b.at && a.id > b.id) }

  function CursorAt(r: Record): Cursor { Cursor(r.at / 1000, r.id) }

  /** timestamp < :ts OR (timestamp = :ts AND id < :id) */
  predicate Below(r: Record, c: Cursor) { r.at < c.millis * 1000 || (r.at == c.millis * 1000 && r.id < c.id) }

  predicate Matches(r: Record, user: nat, cursor: Option<Cursor>) {
    r.user == user && (cursor.None? || Below(r, cursor.value))
  }

  function Where(rows: seq<Record>, user: nat, cursor: Option<Cursor>): seq<Record> {
    if rows == [] then []
    else (if Matches(rows[0], user, cursor) then [rows[0]] else []) + Where(rows[1..], user, cursor)
  }

  function Insert(r: Record, sorted: seq<Record>): seq<Record> {
    if sorted == [] || Precedes(r, sorted[0]) then [r] + sorted else [sorted[0]] + Insert(r, sorted[1..])
  }

  function Ordered(rows: seq<Record>): seq<Record> {
    if rows == [] then [] else Insert(rows[0], Ordered(rows[1..]))
  }

  function Query(rows: seq<Record>, user: nat, cursor: Option<Cursor>): seq<Record> {
    Ordered(Where(rows, user, cursor))
  }

  /** One call, with `take: limit + 1` deciding hasMore. */
  function GetMyAttendance(rows: seq<Record>, user: nat, token: Option<Token>, limit: nat): Result<Page, Error> {
    if token.Some? && token.value.Malformed? then Failure(InvalidCursor)
    else
      var cursor := if token.Some? then Some(token.value.cursor) else None;
      var found := Query(rows, user, cursor);
      var records := if |found| <= limit + 1 then found else found[..limit + 1];
      var hasMore := |records| > limit;
      var data := if hasMore then records[..limit] else records;
      var next := if hasMore && |data| > 0 then Some(CursorAt(data[|data| - 1])) else None;
      Success(Page(data, next, hasMore))
  }

  // ---------------------------------------------------------------- sorting and filtering

  /** Strictly descending. */
  ghost predicate Descending(rs: seq<Record>) {
    rs == [] || ((forall k :: 1 <= k < |rs| ==> Precedes(rs[0], rs[k])) && Descending(rs[1..]))
  }

  function Filter(rs: seq<Record>, c: Cursor): seq<Record> {
    if rs == [] then [] else (if Below(rs[0], c) then [rs[0]] else []) + Filter(rs[1..], c)
  }

  ghost predicate DistinctIds(rows: seq<Record>) {
    rows == [] || ((forall k :: 1 <= k < |rows| ==> rows[k].id != rows[0].id) && DistinctIds(rows[1..]))
  }

  lemma {:induction false} InsertIs(r: Record, sorted: seq<Record>)
    ensures multiset(Insert(r, sorted)) == multiset{r} + multiset(sorted)
    ensures forall x :: x in Insert(r, sorted) <==> x == r || x in sorted
  {
    if sorted == [] || Precedes(r, sorted[0]) {
      assert [r] + sorted == Insert(r, sorted);
    } else {
      InsertIs(r, sorted[1..]);
      assert sorted == [sorted[0]] + sorted[1..];
    }
  }

  lemma {:induction false} OrderedIs(rows: seq<Record>)
    ensures multiset(Ordered(rows)) == multiset(rows)
    ensures forall x :: x in Ordered(rows) <==> x in rows
  {
    if rows != [] {
      OrderedIs(rows[1..]);
      InsertIs(rows[0], Ordered(rows[1..]));
      assert rows == [rows[0]] + rows[1..];
    }
  }

  lemma {:induction false} InsertKeepsDescending(r: Record, sorted: seq<Record>)
    requires Descending(sorted) && forall k :: 0 <= k < |sorted| ==> sorted[k].id != r.id
    ensures Descending(Insert(r, sorted))
  {
    if sorted == [] {
      assert Descending([r][1..]);
    } else if Precedes(r, sorted[0]) {
      assert ([r] + sorted)[1..] == sorted;
      forall k | 1 <= k < |sorted| + 1 ensures Precedes(r, ([r] + sorted)[k]) {
        if k > 1 { assert Precedes(sorted[0], sorted[k - 1]); }
      }
    } else {
      var rest := Insert(r, sorted[1..]);
      InsertKeepsDescending(r, sorted[1..]);
      InsertIs(r, sorted[1..]);
      var all := [sorted[0]] + rest;
      assert all[1..] == rest;
      forall k | 1 <= k < |all| ensures Precedes(all[0], all[k]) {
        assert all[k] in rest;
        if all[k] != r {
          var j :| 0 <= j < |sorted[1..]| && sorted[1..][j] == all[k];
          assert sorted[j + 1] == all[k];
        }
      }
    }
  }

  lemma {:induction false} WhereHas(rows: seq<Record>, user: nat, cursor: Option<Cursor>, x: Record)
    ensures x in Where(rows, user, cursor) <==> x in rows && Matches(x, user, cursor)
  {
    if rows != [] {
      WhereHas(rows[1..], user, cursor, x);
      assert x in rows <==> x == rows[0] || x in rows[1..];
    }
  }

  /** The first row is inserted into the answer over the others, if it matches. */
  lemma QueryStep(rows: seq<Record>, user: nat, cursor: Option<Cursor>)
    requires rows != [] && DistinctIds(rows)
    ensures var rest := Query(rows[1..], user, cursor);
            && Query(rows, user, cursor) == (if Matches(rows[0], user, cursor) then Insert(rows[0], rest) else rest)
            && forall k :: 0 <= k < |rest| ==> rest[k].id != rows[0].id
  {
    var found, rest := Where(rows[1..], user, cursor), Query(rows[1..], user, cursor);
    assert ([rows[0]] + found)[1..] == found && [] + found == found;
    forall k | 0 <= k < |rest| ensures rest[k].id != rows[0].id {
      OrderedIs(found);
      WhereHas(rows[1..], user, cursor, rest[k]);
      var j :| 0 <= j < |rows[1..]| && rows[1..][j] == rest[k];
      assert rows[j + 1] == rest[k];
    }
  }

  lemma {:induction false} QueryDescends(rows: seq<Record>, user: nat, cursor: Option<Cursor>)
    requires DistinctIds(rows)
    ensures Descending(Query(rows, user, cursor))
  {
    if rows != [] {
      QueryDescends(rows[1..], user, cursor);
      QueryStep(rows, user, cursor);
      if Matches(rows[0], user, cursor) { InsertKeepsDescending(rows[0], Query(rows[1..], user, cursor)); }
    }
  }

  lemma {:induction false} FilterInsert(r: Record, sorted: seq<Record>, c: Cursor)
    ensures Filter(Insert(r, sorted), c) == if Below(r, c) then Insert(r, Filter(sorted, c)) else Filter(sorted, c)
    requires Descending(sorted)
    requires forall k :: 0 <= k < |sorted| ==> sorted[k].id != r.id
  {
    if sorted == [] {
      assert Filter([r][1..], c) == [];
    } else if Precedes(r, sorted[0]) {
      assert ([r] + sorted)[1..] == sorted;
      FilterFirst(r, sorted, c);
    } else {
      var s0, rest := sorted[0], Insert(r, sorted[1..]);
      assert ([s0] + rest)[1..] == rest;
      FilterInsert(r, sorted[1..], c);
      if Below(s0, c) {
        assert ([s0] + Filter(sorted[1..], c))[1..] == Filter(sorted[1..], c);
      } else {
        assert [] + Filter(rest, c) == Filter(rest, c) && [] + Filter(sorted[1..], c) == Filter(sorted[1..], c);
      }
    }
  }

  /** What precedes a whole list also precedes its selection. */
  lemma {:induction false} FilterFirst(r: Record, sorted: seq<Record>, c: Cursor)
    requires Descending(sorted) && (sorted == [] || Precedes(r, sorted[0]))
    ensures Insert(r, Filter(sorted, c)) == [r] + Filter(sorted, c)
  {
    if sorted != [] {
      if Below(sorted[0], c) {
      } else {
        assert [] + Filter(sorted[1..], c) == Filter(sorted[1..], c);
        if |sorted| > 1 { assert Precedes(sorted[0], sorted[1]); }
        FilterFirst(r, sorted[1..], c);
      }
    }
  }

  /** Restricting the query by a cursor is filtering the unrestricted answer. */
  lemma {:induction false} QueryIsFilter(rows: seq<Record>, user: nat, c: Cursor)
    requires DistinctIds(rows)
    ensures Query(rows, user, Some(c)) == Filter(Query(rows, user, None), c)
  {
    if rows != [] {
      QueryIsFilter(rows[1..], user, c);
      QueryDescends(rows[1..], user, None);
      QueryStep(rows, user, None);
      QueryStep(rows, user, Some(c));
      hide Query, Below, Filter;
      if rows[0].user == user { FilterInsert(rows[0], Query(rows[1..], user, None), c); }
    }
  }

  // ---------------------------------------------------------------- following the cursor

  lemma CursorsDescend(r: Record, last: Record, c: Cursor)
    requires Below(r, CursorAt(last)) && Below(last, c)
    ensures Below(r, c)
  {
  }

  lemma {:induction false} WhereShrinks(rows: seq<Record>, user: nat, cursor: Option<Cursor>, last: Record)
    requires Matches(last, user, cursor)
    ensures var before, after := Where(rows, user, cursor), Where(rows, user, Some(CursorAt(last)));
            |after| <= |before| && (last in rows ==> |after| < |before|)
  {
    if rows != [] {
      WhereShrinks(rows[1..], user, cursor, last);
      if Matches(rows[0], user, Some(CursorAt(last))) && cursor.Some? {
        CursorsDescend(rows[0], last, cursor.value);
      }
      assert last in rows <==> last == rows[0] || last in rows[1..];
    }
  }

  /** The next page asks for strictly fewer records, so following the cursor ends. */
  lemma QueryShrinks(rows: seq<Record>, user: nat, cursor: Option<Cursor>, last: Record)
    requires last in Query(rows, user, cursor)
    ensures |Query(rows, user, Some(CursorAt(last)))| < |Query(rows, user, cursor)|
    ensures last in rows && Matches(last, user, cursor)
  {
    var before, after := Where(rows, user, cursor), Where(rows, user, Some(CursorAt(last)));
    OrderedIs(before);
    OrderedIs(after);
    WhereHas(rows, user, cursor, last);
    WhereShrinks(rows, user, cursor, last);
    assert |Ordered(before)| == |multiset(Ordered(before))| == |multiset(before)| == |before|;
    assert |Ordered(after)| == |multiset(Ordered(after))| == |multiset(after)| == |after|;
  }

  /** Every page's data, following nextCursor until hasMore is false. */
  function AllPages(rows: seq<Record>, user: nat, cursor: Option<Cursor>, limit: nat): seq<Record>
    requires limit >= 1
    decreases |Query(rows, user, cursor)|
  {
    var token := if cursor.Some? then Some(Encoded(cursor.value)) else None;
    var page := GetMyAttendance(rows, user, token, limit).value;
    if !page.hasMore then page.data
    else
      assert page.data[|page.data| - 1] == Query(rows, user, cursor)[limit - 1];
      QueryShrinks(rows, user, cursor, page.data[|page.data| - 1]);
      page.data + AllPages(rows, user, page.nextCursor, limit)
  }

  /** The same walk over one fixed listing. */
  function Walk(listing: seq<Record>, limit: nat): seq<Record>
    requires limit >= 1
    decreases |listing|
  {
    if |listing| <= limit then listing
    else
      var c := CursorAt(listing[limit - 1]);
      FilterLength(listing, c, limit - 1);
      listing[..limit] + Walk(Filter(listing, c), limit)
  }

  lemma {:induction false} FilterLength(rs: seq<Record>, c: Cursor, k: nat)
    ensures |Filter(rs, c)| <= |rs|
    ensures k < |rs| && !Below(rs[k], c) ==> |Filter(rs, c)| < |rs|
  {
    if rs != [] { FilterLength(rs[1..], c, if k > 0 then k - 1 else 0); }
  }

  lemma {:induction false} FilterTwice(rs: seq<Record>, c: Cursor, last: Record)
    requires Below(last, c)
    ensures Filter(Filter(rs, c), CursorAt(last)) == Filter(rs, CursorAt(last))
  {
    if rs != [] {
      FilterTwice(rs[1..], c, last);
      var rest := Filter(rs[1..], c);
      if Below(rs[0], c) {
        assert ([rs[0]] + rest)[1..] == rest;
      } else {
        assert [] + rest == rest;
        if Below(rs[0], CursorAt(last)) { CursorsDescend(rs[0], last, c); }
        assert [] + Filter(rs[1..], CursorAt(last)) == Filter(rs[1..], CursorAt(last));
      }
    }
  }

  /** Asking again below a record of the answer is filtering the answer. */
  lemma NextQuery(rows: seq<Record>, user: nat, cursor: Option<Cursor>, last: Record)
    requires DistinctIds(rows) && last in Query(rows, user, cursor)
    ensures Query(rows, user, Some(CursorAt(last))) == Filter(Query(rows, user, cursor), CursorAt(last))
  {
    QueryIsFilter(rows, user, CursorAt(last));
    if cursor.Some? {
      QueryShrinks(rows, user, cursor, last);
      QueryIsFilter(rows, user, cursor.value);
      FilterTwice(Query(rows, user, None), cursor.value, last);
    }
  }

  lemma {:induction false} PagesAreWalk(rows: seq<Record>, user: nat, cursor: Option<Cursor>, limit: nat)
    requires DistinctIds(rows) && limit >= 1
    ensures AllPages(rows, user, cursor, limit) == Walk(Query(rows, user, cursor), limit)
    decreases |Query(rows, user, cursor)|
  {
    hide Query, Filter, CursorAt, DistinctIds;
    var found := Query(rows, user, cursor);
    if |found| > limit {
      var last := found[limit - 1];
      QueryShrinks(rows, user, cursor, last);
      NextQuery(rows, user, cursor, last);
      assert |found| > limit + 1 ==> found[..limit + 1][..limit] == found[..limit];
      PagesAreWalk(rows, user, Some(CursorAt(last)), limit);
    }
  }

  /** No record shares the millisecond of an earlier one in a way its cursor cannot tell. */
  ghost predicate NoneHidden(rs: seq<Record>) {
    rs == [] || ((forall k :: 1 <= k < |rs| ==> Below(rs[k], CursorAt(rs[0]))) && NoneHidden(rs[1..]))
  }

  lemma {:induction false} FilterAll(rs: seq<Record>, c: Cursor)
    ensures |Filter(rs, c)| == |rs| <==> forall k :: 0 <= k < |rs| ==> Below(rs[k], c)
    ensures |Filter(rs, c)| == |rs| ==> Filter(rs, c) == rs
  {
    if rs != [] {
      FilterAll(rs[1..], c);
      FilterLength(rs[1..], c, 0);
      assert rs == [rs[0]] + rs[1..];
      if |Filter(rs, c)| == |rs| {
        forall k | 0 <= k < |rs| ensures Below(rs[k], c) {
          if k > 0 { assert rs[k] == rs[1..][k - 1]; }
        }
      } else if Below(rs[0], c) {
        var k :| 0 <= k < |rs[1..]| && !Below(rs[1..][k], c);
        assert rs[k + 1] == rs[1..][k];
      }
    }
  }

  lemma FirstIsNotBelow(rs: seq<Record>, k: nat)
    requires Descending(rs) && k < |rs|
    ensures !Below(rs[0], CursorAt(rs[k]))
  {
    if k > 0 { assert Precedes(rs[0], rs[k]); }
  }

  /** The cursor of record k selects exactly what follows it. */
  lemma {:induction false} FilterIsTail(rs: seq<Record>, k: nat)
    requires Descending(rs) && NoneHidden(rs) && k < |rs|
    ensures Filter(rs, CursorAt(rs[k])) == rs[k + 1..]
  {
    var c := CursorAt(rs[k]);
    FirstIsNotBelow(rs, k);
    assert [] + Filter(rs[1..], c) == Filter(rs[1..], c);
    if k == 0 {
      FilterAll(rs[1..], c);
    } else {
      FilterIsTail(rs[1..], k - 1);
    }
  }

  lemma {:induction false} TailStays(rs: seq<Record>, k: nat)
    requires Descending(rs) && NoneHidden(rs) && k <= |rs|
    ensures Descending(rs[k..]) && NoneHidden(rs[k..])
  {
    if k == 0 {
      assert rs[0..] == rs;
    } else {
      TailStays(rs[1..], k - 1);
      assert rs[1..][k - 1..] == rs[k..];
    }
  }

  lemma {:induction false} WalkIsComplete(rs: seq<Record>, limit: nat)
    requires Descending(rs) && NoneHidden(rs) && limit >= 1
    ensures Walk(rs, limit) == rs
    decreases |rs|
  {
    hide Filter, Descending, NoneHidden, CursorAt;
    if |rs| > limit {
      FilterIsTail(rs, limit - 1);
      TailStays(rs, limit);
      WalkIsComplete(rs[limit..], limit);
      assert rs == rs[..limit] + rs[limit..];
    }
  }

  lemma {:induction false} WalkLength(rs: seq<Record>, limit: nat)
    requires limit >= 1 && Descending(rs)
    ensures |Walk(rs, limit)| <= |rs|
    decreases |rs|
  {
    if |rs| > limit {
      var c := CursorAt(rs[limit - 1]);
      hide CursorAt, Below, Precedes;
      FilterLength(rs, c, limit - 1);
      FilterSkipsFront(rs, limit - 1);
      FilterDescends(rs, c);
      WalkLength(Filter(rs, c), limit);
    }
  }

  lemma {:induction false} FilterDescends(rs: seq<Record>, c: Cursor)
    requires Descending(rs)
    ensures Descending(Filter(rs, c))
    ensures forall k :: 0 <= k < |Filter(rs, c)| ==> Filter(rs, c)[k] in rs
  {
    hide Below, Precedes;
    if rs != [] {
      FilterDescends(rs[1..], c);
      var rest := Filter(rs[1..], c);
      if Below(rs[0], c) {
        assert ([rs[0]] + rest)[1..] == rest;
        forall k | 1 <= k < |rest| + 1 ensures Precedes(rs[0], ([rs[0]] + rest)[k]) {
          var j :| 0 <= j < |rs[1..]| && rs[1..][j] == rest[k - 1];
          assert Precedes(rs[0], rs[j + 1]);
        }
      } else {
        assert [] + rest == rest;
      }
    }
  }

  /** Nothing up to record k comes after it. */
  lemma {:induction false} FilterSkipsFront(rs: seq<Record>, k: nat)
    requires Descending(rs) && k < |rs|
    ensures |Filter(rs, CursorAt(rs[k]))| <= |rs| - k - 1
  {
    var c := CursorAt(rs[k]);
    FirstIsNotBelow(rs, k);
    assert [] + Filter(rs[1..], c) == Filter(rs[1..], c);
    if k == 0 { FilterLength(rs[1..], c, 0); } else { FilterSkipsFront(rs[1..], k - 1); }
  }

  /** Pages of one record expose every hidden record. */
  lemma {:induction false} WalkOneByOne(rs: seq<Record>)
    requires Descending(rs) && Walk(rs, 1) == rs
    ensures NoneHidden(rs)
    decreases |rs|
  {
    if |rs| > 1 {
      var c := CursorAt(rs[0]);
      var rest := Filter(rs, c);
      FilterSkipsFront(rs, 0);
      FilterDescends(rs, c);
      WalkLength(rest, 1);
      assert [] + Filter(rs[1..], c) == Filter(rs[1..], c);
      assert rest == Filter(rs[1..], c) && |Walk(rest, 1)| == |rs| - 1;
      FilterAll(rs[1..], c);
      assert rest == rs[1..] && Walk(rest, 1) == rs[1..];
      WalkOneByOne(rs[1..]);
      forall k | 1 <= k < |rs| ensures Below(rs[k], c) { assert rs[k] == rs[1..][k - 1]; }
    }
  }

  /** Two records of one millisecond: the later one is on the tick and has the smaller id. */
  ghost predicate Told(a: Record, b: Record) {
    Precedes(a, b) && a.at / 1000 == b.at / 1000 ==> b.at % 1000 == 0 && b.id < a.id
  }

  lemma ToldIsBelow(a: Record, b: Record)
    requires Precedes(a, b)
    ensures Told(a, b) <==> Below(b, CursorAt(a))
  {
  }

  lemma {:induction false} NoneHiddenIff(rs: seq<Record>)
    requires Descending(rs)
    ensures NoneHidden(rs) <==> forall a, b :: a in rs && b in rs ==> Told(a, b)
  {
    if rs != [] {
      NoneHiddenIff(rs[1..]);
      assert rs == [rs[0]] + rs[1..];
      forall k | 1 <= k < |rs| ensures Told(rs[0], rs[k]) <==> Below(rs[k], CursorAt(rs[0])) {
        ToldIsBelow(rs[0], rs[k]);
      }
      if NoneHidden(rs) {
        forall a, b | a in rs && b in rs ensures Told(a, b) {
          if a == rs[0] && b != rs[0] {
            var k :| 0 <= k < |rs| && rs[k] == b;
          } else if b == rs[0] && a != rs[0] {
            var k :| 0 <= k < |rs| && rs[k] == a;
            assert Precedes(b, a);
          }
        }
      } else if k :| 1 <= k < |rs| && !Below(rs[k], CursorAt(rs[0])) {
        assert !Told(rs[0], rs[k]);
      } else {
        var a, b :| a in rs[1..] && b in rs[1..] && !Told(a, b);
        assert a in rs && b in rs;
      }
    }
  }

  lemma {:induction false} DescendingPairs(rs: seq<Record>)
    requires Descending(rs)
    ensures forall i, j :: 0 <= i < j < |rs| ==> Precedes(rs[i], rs[j])
  {
    if rs != [] {
      DescendingPairs(rs[1..]);
      forall i, j | 0 <= i < j < |rs| ensures Precedes(rs[i], rs[j]) {
        if i > 0 { assert rs[1..][i - 1] == rs[i] && rs[1..][j - 1] == rs[j]; }
      }
    }
  }

  /** One page: the first records below the cursor, and a cursor to the last of them when more are left. */
  lemma PageIs(rows: seq<Record>, user: nat, token: Option<Token>, limit: nat)
    ensures var r := GetMyAttendance(rows, user, token, limit);
            && (r == Failure(InvalidCursor) <==> token == Some(Malformed))
            && (r.Success? ==>
                  var found := Query(rows, user, if token == None then None else Some(token.value.cursor));
                  && r.value.hasMore == (|found| > limit)
                  && r.value.data == (if |found| > limit then found[..limit] else found)
                  && (r.value.nextCursor.Some? <==> |found| > limit && limit > 0)
                  && (|found| > limit && limit > 0 ==>
                        r.value.nextCursor == Some(Cursor(found[limit - 1].at / 1000, found[limit - 1].id))))
  {
  }

  /** What the pages should add up to: each of the user's records exactly once, newest first. */
  lemma ListingIsExact(rows: seq<Record>, user: nat)
    requires DistinctIds(rows)
    ensures var listing := Query(rows, user, None);
            && Descending(listing)
            && (forall i, j :: 0 <= i < j < |listing| ==>
                  listing[i].at > listing[j].at || (listing[i].at == listing[j].at && listing[i].id > listing[j].id))
            && multiset(listing) == multiset(Where(rows, user, None))
            && (forall x :: x in listing <==> x in rows && x.user == user)
  {
    QueryDescends(rows, user, None);
    DescendingPairs(Query(rows, user, None));
    OrderedIs(Where(rows, user, None));
    forall x ensures x in Query(rows, user, None) <==> x in rows && x.user == user {
      WhereHas(rows, user, None, x);
    }
  }

  /**
   * Main result: the pages add up to the listing for every page size exactly when no two of the user's
   * records share a millisecond, other than a later one on the tick with a smaller id.
   */
  lemma PagesAreCompleteIff(rows: seq<Record>, user: nat)
    requires DistinctIds(rows)
    ensures (forall limit: nat :: limit >= 1 ==> AllPages(rows, user, None, limit) == Query(rows, user, None))
            <==> (forall a, b :: a in rows && b in rows && a.user == user && b.user == user ==> Told(a, b))
  {
    var listing := Query(rows, user, None);
    ListingIsExact(rows, user);
    NoneHiddenIff(listing);
    if NoneHidden(listing) {
      forall limit: nat | limit >= 1 ensures AllPages(rows, user, None, limit) == listing {
        PagesAreWalk(rows, user, None, limit);
        WalkIsComplete(listing, limit);
      }
    } else {
      PagesAreWalk(rows, user, None, 1);
      if Walk(listing, 1) == listing { WalkOneByOne(listing); }
      assert AllPages(rows, user, None, 1) != listing;
    }
  }

  lemma InsertBefore(r: Record, s: Record)
    requires Precedes(r, s)
    ensures Ordered([s]) == [s] && Insert(r, [s]) == [r, s]
  {
    assert [s][1..] == [];
  }

  /** Two records of one user that their cursor cannot tell apart: pages of one show the first and skip the other. */
  lemma PairIsSkipped(later: Record, earlier: Record)
    requires later.user == earlier.user && later.id != earlier.id
    requires Precedes(later, earlier) && !Below(earlier, CursorAt(later))
    ensures var rows, user := [later, earlier], later.user;
            DistinctIds(rows) && Query(rows, user, None) == rows && AllPages(rows, user, None, 1) == [later]
  {
    var rows, user := [later, earlier], later.user;
    assert rows[1..] == [earlier] && [earlier][1..] == [] && DistinctIds([earlier]);
    assert Where([], user, None) == [] && Where([earlier], user, None) == [earlier] && Where(rows, user, None) == rows;
    InsertBefore(later, earlier);
    PagesAreWalk(rows, user, None, 1);
    hide AllPages, Query, Where, Ordered;
    var c := CursorAt(later);
    assert Filter([], c) == [] && Filter([earlier], c) == [] && Filter(rows, c) == [];
    assert Walk(rows, 1) == rows[..1] + Walk([], 1);
  }

  /** Such a pair, 300 microseconds apart in one millisecond. */
  lemma RecordIsSkipped()
    ensures var later, earlier := Record(2, 7, 1500), Record(1, 7, 1200);
            var rows := [later, earlier];
            DistinctIds(rows) && Query(rows, 7, None) == [later, earlier] && AllPages(rows, 7, None, 1) == [later]
  {
    PairIsSkipped(Record(2, 7, 1500), Record(1, 7, 1200));
  }

  /** With timestamps no finer than the cursor's, every page size is complete. */
  lemma MillisecondsSuffice(rows: seq<Record>, user: nat, limit: nat)
    requires DistinctIds(rows) && limit >= 1
    requires forall r :: r in rows ==> r.at % 1000 == 0
    ensures AllPages(rows, user, None, limit) == Query(rows, user, None)
  {
    PagesAreCompleteIff(rows, user);
  }
}
