/** The pull feed: pages of the ring history for one receiver, and its acknowledged cursor. */
module Feed {
  import opened Types
  import opened Relay

  /** What a receiver with these tags is shown of the rings with an id in (lo, hi]. */
  function Matching(rings: seq<Ring>, tags: seq<string>, lo: int, hi: int): (kept: seq<Ring>)
    ensures forall r :: r in kept <==> r in rings && lo < r.id <= hi && TagsMatch(tags, r.tags)
  {
    if rings == [] then [] else
      var last := rings[|rings| - 1];
      Matching(rings[..|rings| - 1], tags, lo, hi)
      + (if lo < last.id <= hi && TagsMatch(tags, last.tags) then [last] else [])
  }

  /** The rings with ids above the floor, in id order. */
  function Above(rings: seq<Ring>, floor: int): (kept: seq<Ring>)
    ensures forall r :: r in kept <==> r in rings && floor < r.id
  {
    if rings == [] then [] else
      var last := rings[|rings| - 1];
      Above(rings[..|rings| - 1], floor) + (if floor < last.id then [last] else [])
  }

  function Clamp(x: int, lo: int, hi: int): int { if x < lo then lo else if x > hi then hi else x }

  function PageLimit(limit: Option<U32>): nat { Clamp(if limit.Some? then limit.value else 50, 1, 100) }

  /** A bounded batch, so that rings for other receivers can still advance the cursor. */
  function ScanLimit(limit: nat): nat { Clamp(limit * 20, 100, 2000) }

  function Last(rings: seq<Ring>): Ring
    requires rings != []
  {
    rings[|rings| - 1]
  }

  /**
   A page: every matching ring up to the cursor, which is the last ring looked at; looking stops when the page is
   full or the batch is exhausted, and not before.
   */
  ghost predicate IsPage(rings: seq<Ring>, tags: seq<string>, floor: int, limit: nat, page: seq<Ring>, cursor: int) {
    var above := Above(rings, floor);
    && page == Matching(rings, tags, floor, cursor) && |page| <= limit
    && if above == [] then cursor == floor else LooksUpTo(above, limit, page, cursor)
  }

  ghost predicate LooksUpTo(above: seq<Ring>, limit: nat, page: seq<Ring>, cursor: int) {
    var batch := Min(ScanLimit(limit), |above|);
    exists i :: 0 <= i < batch && cursor == above[i].id && StopsAt(above, limit, page, batch, i)
  }

  ghost predicate StopsAt(above: seq<Ring>, limit: nat, page: seq<Ring>, batch: nat, i: nat)
    requires i < batch <= |above|
  {
    && (|page| == limit ==> page != [] && Last(page) == above[i])
    && (i + 1 < batch ==> |page| == limit)
  }

  // ----- selections of the history -----

  lemma {:induction false} SameMatches(rings: seq<Ring>, tags: seq<string>, lo: int, hi: int, lo': int, hi': int)
    requires forall r :: r in rings ==> (lo < r.id <= hi <==> lo' < r.id <= hi')
    ensures Matching(rings, tags, lo, hi) == Matching(rings, tags, lo', hi')
  {
    if rings == [] {
    } else {
      assert Last(rings) in rings;
      SameMatches(rings[..|rings| - 1], tags, lo, hi, lo', hi');
    }
  }

  lemma MatchingSnoc(rings: seq<Ring>, last: Ring, tags: seq<string>, lo: int, hi: int)
    ensures Matching(rings + [last], tags, lo, hi)
            == Matching(rings, tags, lo, hi) + (if lo < last.id <= hi && TagsMatch(tags, last.tags) then [last] else [])
  {
    assert (rings + [last])[..|rings + [last]| - 1] == rings;
  }

  lemma {:induction false} NoMatches(rings: seq<Ring>, tags: seq<string>, lo: int, hi: int)
    requires forall r :: r in rings ==> !(lo < r.id <= hi)
    ensures Matching(rings, tags, lo, hi) == []
  {
    if rings == [] {
    } else {
      assert Last(rings) in rings;
      NoMatches(rings[..|rings| - 1], tags, lo, hi);
    }
  }

  lemma OrderedRest(rings: seq<Ring>)
    requires rings != [] && Ordered(rings)
    ensures Ordered(rings[..|rings| - 1]) && forall r :: r in rings[..|rings| - 1] ==> r.id < Last(rings).id
  {
  }

  lemma Associate(a: seq<Ring>, b: seq<Ring>, c: seq<Ring>)
    ensures a + (b + c) == (a + b) + c
  {
  }

  /** The part of a selection that one ring contributes. */
  function Shows(r: Ring, tags: seq<string>, lo: int, hi: int): seq<Ring> {
    if lo < r.id <= hi && TagsMatch(tags, r.tags) then [r] else []
  }

  /** Adjacent selections concatenate. */
  lemma {:induction false} MatchesConcat(rings: seq<Ring>, tags: seq<string>, lo: int, mid: int, hi: int)
    requires Ordered(rings) && lo <= mid <= hi
    ensures Matching(rings, tags, lo, mid) + Matching(rings, tags, mid, hi) == Matching(rings, tags, lo, hi)
  {
    if rings == [] {
    } else {
      hide Matching, TagsMatch;
      var rest, last := rings[..|rings| - 1], Last(rings);
      OrderedRest(rings);
      MatchesConcat(rest, tags, lo, mid, hi);
      MatchingRest(rings, tags, lo, mid);
      MatchingRest(rings, tags, mid, hi);
      MatchingRest(rings, tags, lo, hi);
      if last.id <= mid {
        NoMatches(rest, tags, mid, hi);
      }
      ShownOnce(last, tags, lo, mid, hi);
      hide Ordered, Shows;
      Associate(Matching(rest, tags, lo, mid), Matching(rest, tags, mid, hi), Shows(last, tags, lo, hi));
    }
  }

  lemma ShownOnce(r: Ring, tags: seq<string>, lo: int, mid: int, hi: int)
    requires lo <= mid <= hi
    ensures r.id <= mid ==> Shows(r, tags, mid, hi) == [] && Shows(r, tags, lo, mid) == Shows(r, tags, lo, hi)
    ensures mid < r.id ==> Shows(r, tags, lo, mid) == [] && Shows(r, tags, mid, hi) == Shows(r, tags, lo, hi)
  {
  }

  lemma MatchingRest(rings: seq<Ring>, tags: seq<string>, lo: int, hi: int)
    requires rings != []
    ensures Matching(rings, tags, lo, hi) == Matching(rings[..|rings| - 1], tags, lo, hi) + Shows(Last(rings), tags, lo, hi)
    ensures Shows(Last(rings), tags, lo, hi) == [] ==> Matching(rings, tags, lo, hi) == Matching(rings[..|rings| - 1], tags, lo, hi)
  {
  }

  lemma {:induction false} AboveIsOrdered(rings: seq<Ring>, floor: int)
    requires Ordered(rings)
    ensures Ordered(Above(rings, floor))
  {
    if rings == [] {
    } else {
      OrderedRest(rings);
      AboveIsOrdered(rings[..|rings| - 1], floor);
    }
  }

  /** Only rings above the floor matter. */
  lemma {:induction false} MatchesAbove(rings: seq<Ring>, tags: seq<string>, lo: int, hi: int)
    ensures Matching(rings, tags, lo, hi) == Matching(Above(rings, lo), tags, lo, hi)
  {
    if rings == [] {
    } else {
      var rest, last := rings[..|rings| - 1], Last(rings);
      MatchesAbove(rest, tags, lo, hi);
      if lo < last.id {
        MatchingSnoc(Above(rest, lo), last, tags, lo, hi);
      } else {
        assert Above(rings, lo) == Above(rest, lo);
      }
    }
  }

  /** Rings past the bound do not matter. */
  lemma {:induction false} MatchesPrefix(rings: seq<Ring>, tags: seq<string>, lo: int, n: nat, hi: int)
    requires Ordered(rings) && n <= |rings|
    requires forall k :: n <= k < |rings| ==> hi < rings[k].id
    ensures Matching(rings, tags, lo, hi) == Matching(rings[..n], tags, lo, hi)
    decreases |rings|
  {
    if n < |rings| {
      var rest := rings[..|rings| - 1];
      OrderedRest(rings);
      MatchesPrefix(rest, tags, lo, n, hi);
      assert rest[..n] == rings[..n];
    } else {
      assert rings[..n] == rings;
    }
  }

  // ----- the page -----

  /** Where the cursor is after `i` rows. */
  function CursorAt(rows: seq<Ring>, floor: int, i: nat): int
    requires i <= |rows|
  {
    if i == 0 then floor else rows[i - 1].id
  }

  lemma NextRow(rows: seq<Ring>, tags: seq<string>, floor: int, i: nat)
    requires Ordered(rows) && i < |rows| && forall r :: r in rows ==> floor < r.id
    ensures Matching(rows[..i + 1], tags, floor, rows[i].id)
            == Matching(rows[..i], tags, floor, CursorAt(rows, floor, i)) + (if TagsMatch(tags, rows[i].tags) then [rows[i]] else [])
  {
    assert rows[..i + 1] == rows[..i] + [rows[i]];
    SameMatches(rows[..i], tags, floor, CursorAt(rows, floor, i), floor, rows[i].id);
    MatchingSnoc(rows[..i], rows[i], tags, floor, rows[i].id);
    assert rows[i] in rows;
  }

  /** What was selected from the rows looked at is what the history has up to the cursor. */
  lemma RowsSuffice(rings: seq<Ring>, tags: seq<string>, floor: int, n: nat)
    requires Ordered(rings) && n <= |Above(rings, floor)|
    ensures var cursor := CursorAt(Above(rings, floor), floor, n);
            Matching(rings, tags, floor, cursor) == Matching(Above(rings, floor)[..n], tags, floor, cursor)
  {
    var above := Above(rings, floor);
    AboveIsOrdered(rings, floor);
    MatchesAbove(rings, tags, floor, CursorAt(above, floor, n));
    MatchesPrefix(above, tags, floor, n, CursorAt(above, floor, n));
  }

  lemma PageDone(rings: seq<Ring>, tags: seq<string>, floor: int, limit: nat, page: seq<Ring>, n: nat)
    requires Ordered(rings) && 1 <= limit && |page| <= limit && n <= Min(ScanLimit(limit), |Above(rings, floor)|)
    requires page == Matching(Above(rings, floor)[..n], tags, floor, CursorAt(Above(rings, floor), floor, n))
    requires |page| < limit ==> n == Min(ScanLimit(limit), |Above(rings, floor)|)
    requires |page| == limit ==> n > 0 && Last(page) == Above(rings, floor)[n - 1]
    ensures IsPage(rings, tags, floor, limit, page, CursorAt(Above(rings, floor), floor, n))
  {
    hide Matching, Above, Ordered;
    RowsSuffice(rings, tags, floor, n);
    var above := Above(rings, floor);
    var batch := Min(ScanLimit(limit), |above|);
    if n > 0 {
      assert StopsAt(above, limit, page, batch, n - 1);
    }
  }

  /** The loop over the batch; `cursor` ends at the last ring looked at. */
  method Page(rings: seq<Ring>, tags: seq<string>, floor: int, limit: nat) returns (page: seq<Ring>, cursor: int)
    requires Ordered(rings) && 1 <= limit <= 100
    ensures IsPage(rings, tags, floor, limit, page, cursor)
    ensures Displays(rings, tags, floor, page, cursor) && Looks(rings, floor, limit, page, cursor, Top(rings))
  {
    hide Matching, TagsMatch, Ordered, Above, IsPage, Displays, Looks;
    ghost var above := Above(rings, floor);
    var rows := Above(rings, floor)[..Min(ScanLimit(limit), |Above(rings, floor)|)];
    AboveIsOrdered(rings, floor);
    OrderedPrefixes(above, |rows|);
    page, cursor := [], floor;
    var i := 0;
    NoRows(tags, floor);
    while i < |rows|
      invariant 0 <= i <= |rows|
      invariant cursor == CursorAt(rows, floor, i)
      invariant page == Matching(rows[..i], tags, floor, cursor)
      invariant |page| < limit
    {
      var row := rows[i];
      NextRow(rows, tags, floor, i);
      cursor := row.id;
      i := i + 1;
      if !TagsMatch(tags, row.tags) {
        continue;
      }
      page := page + [row];
      if |page| >= limit {
        break;
      }
    }
    assert above[..i] == rows[..i];
    PageDone(rings, tags, floor, limit, page, i);
    PageShows(rings, tags, floor, limit, page, cursor);
    LastIsTop(rings);
    PageLooks(rings, tags, floor, limit, page, cursor, Top(rings));
  }

  lemma NoRows(tags: seq<string>, floor: int)
    ensures Matching([], tags, floor, floor) == []
  {
  }

  lemma OrderedPrefixes(rings: seq<Ring>, n: nat)
    requires Ordered(rings) && n <= |rings|
    ensures Ordered(rings[..n])
  {
  }

  /** There is a page for every request: the one the loop finds. */
  lemma PageExists(rings: seq<Ring>, tags: seq<string>, floor: int, limit: nat) returns (page: seq<Ring>, cursor: int)
    requires Ordered(rings) && 1 <= limit <= 100
    ensures IsPage(rings, tags, floor, limit, page, cursor)
  {
    hide Matching, TagsMatch, Ordered, Above, IsPage;
    var above := Above(rings, floor);
    var batch := Min(ScanLimit(limit), |above|);
    AboveIsOrdered(rings, floor);
    page := [];
    var i := 0;
    NoRows(tags, floor);
    while i < batch && |page| < limit
      invariant 0 <= i <= batch && |page| <= limit
      invariant page == Matching(above[..i], tags, floor, CursorAt(above, floor, i))
      invariant |page| == limit ==> i > 0 && Last(page) == above[i - 1]
    {
      NextRow(above, tags, floor, i);
      if TagsMatch(tags, above[i].tags) {
        page := page + [above[i]];
      }
      i := i + 1;
    }
    cursor := CursorAt(above, floor, i);
    PageDone(rings, tags, floor, limit, page, i);
  }

  // ----- what a page says -----

  lemma LastMatch(rings: seq<Ring>, tags: seq<string>, lo: int, hi: int)
    ensures Matching(rings, tags, lo, hi) != [] ==> lo < Last(Matching(rings, tags, lo, hi)).id <= hi
  {
    var kept := Matching(rings, tags, lo, hi);
    if kept != [] {
      assert Last(kept) in kept;
    }
  }

  /** The rules for a page leave no choice. */
  lemma PageIsDetermined(rings: seq<Ring>, tags: seq<string>, floor: int, limit: nat, page: seq<Ring>, cursor: int,
                         page': seq<Ring>, cursor': int)
    requires Ordered(rings) && 1 <= limit
    requires IsPage(rings, tags, floor, limit, page, cursor) && IsPage(rings, tags, floor, limit, page', cursor')
    ensures page == page' && cursor == cursor'
  {
    if cursor < cursor' {
      PageNotShorter(rings, tags, floor, limit, page, cursor, page', cursor');
    } else if cursor' < cursor {
      PageNotShorter(rings, tags, floor, limit, page', cursor', page, cursor);
    }
  }

  lemma PageNotShorter(rings: seq<Ring>, tags: seq<string>, floor: int, limit: nat, page: seq<Ring>, cursor: int,
                       page': seq<Ring>, cursor': int)
    requires Ordered(rings) && 1 <= limit
    requires IsPage(rings, tags, floor, limit, page, cursor) && IsPage(rings, tags, floor, limit, page', cursor')
    ensures cursor' <= cursor
  {
    hide Matching, TagsMatch, Above;
    var above := Above(rings, floor);
    AboveIsOrdered(rings, floor);
    if cursor < cursor' {
      var batch := Min(ScanLimit(limit), |above|);
      var i :| 0 <= i < batch && cursor == above[i].id && StopsAt(above, limit, page, batch, i);
      var i' :| 0 <= i' < batch && cursor' == above[i'].id && StopsAt(above, limit, page', batch, i');
      assert above[i] in above;
      LastMatch(rings, tags, floor, cursor);
      MatchesConcat(rings, tags, floor, cursor, cursor');
      assert false;
    }
  }

  lemma AboveRest(rings: seq<Ring>, floor: int)
    requires rings != []
    ensures Above(rings, floor)
            == if floor < Last(rings).id then Above(rings[..|rings| - 1], floor) + [Last(rings)] else Above(rings[..|rings| - 1], floor)
  {
  }

  /** Reading on from a ring leaves exactly the rings after it. */
  lemma {:induction false} AboveRing(rings: seq<Ring>, floor: int, i: nat)
    requires Ordered(rings) && i < |Above(rings, floor)|
    ensures Above(rings, Above(rings, floor)[i].id) == Above(rings, floor)[i + 1..]
  {
    if rings == [] {
    } else {
      var rest, last := rings[..|rings| - 1], Last(rings);
      OrderedRest(rings);
      AboveRest(rings, floor);
      hide Above;
      var above := Above(rest, floor);
      if i < |above| {
        AboveRing(rest, floor, i);
        assert above[i] in above;
        AboveRest(rings, above[i].id);
        hide Ordered;
        TailSnoc(above, last, i);
      } else {
        NoneAbove(rest, last.id);
        AboveRest(rings, last.id);
      }
    }
  }

  lemma TailSnoc(rings: seq<Ring>, last: Ring, i: nat)
    requires i < |rings|
    ensures (rings + [last])[i] == rings[i] && (rings + [last])[i + 1..] == rings[i + 1..] + [last]
  {
  }

  lemma {:induction false} NoneAbove(rings: seq<Ring>, floor: int)
    requires forall r :: r in rings ==> r.id <= floor
    ensures Above(rings, floor) == []
  {
    if rings == [] {
    } else {
      assert Last(rings) in rings;
      NoneAbove(rings[..|rings| - 1], floor);
    }
  }

  lemma {:induction false} AtMostAll(rings: seq<Ring>, tags: seq<string>, lo: int, hi: int)
    ensures |Matching(rings, tags, lo, hi)| <= |rings|
  {
    if rings == [] {
    } else {
      AtMostAll(rings[..|rings| - 1], tags, lo, hi);
    }
  }

  /**
   The cursor moves past every ring looked at, so it strictly advances while any ring lies above the floor, by at
   least a page's worth of rings or to the end of the history.
   */
  lemma CursorAdvances(rings: seq<Ring>, tags: seq<string>, floor: int, limit: nat, page: seq<Ring>, cursor: int)
    requires Ordered(rings) && 1 <= limit <= 100 && IsPage(rings, tags, floor, limit, page, cursor)
    ensures floor <= cursor && (floor < cursor <==> exists r :: r in rings && floor < r.id)
    ensures |Above(rings, cursor)| <= Max(0, |Above(rings, floor)| - limit)
    ensures cursor > floor ==> exists r :: r in rings && r.id == cursor
  {
    hide Matching, TagsMatch, Above, Ordered;
    var above := Above(rings, floor);
    if above != [] {
      var batch := Min(ScanLimit(limit), |above|);
      var i :| 0 <= i < batch && cursor == above[i].id && StopsAt(above, limit, page, batch, i);
      assert above[i] in above;
      AboveRing(rings, floor, i);
      RowsSuffice(rings, tags, floor, i + 1);
      AtMostAll(above[..i + 1], tags, floor, cursor);
    } else {
      assert forall r :: r in rings && floor < r.id ==> r in above;
    }
  }

  datatype Reply = Reply(page: seq<Ring>, cursor: int)

  function EndCursor(floor: int, replies: seq<Reply>): int {
    if replies == [] then floor else replies[|replies| - 1].cursor
  }

  function Shown(replies: seq<Reply>): seq<Ring> {
    if replies == [] then [] else Shown(replies[..|replies| - 1]) + replies[|replies| - 1].page
  }

  /** Fetches one after the other, each from the cursor the one before returned. */
  ghost predicate Fetched(rings: seq<Ring>, tags: seq<string>, floor: int, limit: nat, replies: seq<Reply>) {
    replies != [] ==>
      var rest, last := replies[..|replies| - 1], replies[|replies| - 1];
      Fetched(rings, tags, floor, limit, rest) && IsPage(rings, tags, EndCursor(floor, rest), limit, last.page, last.cursor)
  }

  lemma {:induction false} FetchesConcat(rings: seq<Ring>, tags: seq<string>, floor: int, limit: nat, replies: seq<Reply>)
    requires Ordered(rings) && 1 <= limit <= 100 && Fetched(rings, tags, floor, limit, replies)
    ensures floor <= EndCursor(floor, replies)
    ensures Shown(replies) == Matching(rings, tags, floor, EndCursor(floor, replies))
    ensures |Above(rings, EndCursor(floor, replies))| <= Max(0, |Above(rings, floor)| - |replies| * limit)
  {
    hide IsPage, Matching, Above, Ordered;
    if replies == [] {
      NoMatches(rings, tags, floor, floor);
    } else {
      var rest, last := replies[..|replies| - 1], replies[|replies| - 1];
      var mid := EndCursor(floor, rest);
      FetchesConcat(rings, tags, floor, limit, rest);
      CursorAdvances(rings, tags, mid, limit, last.page, last.cursor);
      PageMatches(rings, tags, mid, limit, last);
      MatchesConcat(rings, tags, floor, mid, last.cursor);
      assert (|replies| - 1) * limit + limit == |replies| * limit;
    }
  }

  lemma PageMatches(rings: seq<Ring>, tags: seq<string>, floor: int, limit: nat, reply: Reply)
    requires IsPage(rings, tags, floor, limit, reply.page, reply.cursor)
    ensures reply.page == Matching(rings, tags, floor, reply.cursor)
  {
  }

  /**
   On a table that does not change, fetching on from each returned cursor shows every matching ring above the floor
   exactly once and in order, after at most as many fetches as it takes to count the rings above the floor in pages.
   */
  lemma RepeatedFetchesAreExact(rings: seq<Ring>, tags: seq<string>, floor: int, limit: nat, replies: seq<Reply>, top: int)
    requires Ordered(rings) && 1 <= limit <= 100 && Fetched(rings, tags, floor, limit, replies)
    requires |Above(rings, floor)| <= |replies| * limit && forall r :: r in rings ==> r.id <= top
    ensures Shown(replies) == Matching(rings, tags, floor, top)
  {
    hide *;
    var end := EndCursor(floor, replies);
    FetchesConcat(rings, tags, floor, limit, replies);
    NoneLeft(|Above(rings, end)|, |Above(rings, floor)|, |replies| * limit);
    AllBelow(rings, end);
    SameMatches(rings, tags, floor, end, floor, top);
  }

  lemma NoneLeft(left: nat, all: nat, fetched: int)
    requires left <= Max(0, all - fetched) && all <= fetched
    ensures left == 0
  {
  }

  lemma AllBelow(rings: seq<Ring>, end: int)
    requires |Above(rings, end)| == 0
    ensures forall r :: r in rings ==> r.id <= end
  {
    forall r | r in rings ensures r.id <= end {
      assert end < r.id <==> r in Above(rings, end);
    }
  }

  // ----- a page in plain terms -----

  /** The rings with an id in (lo, hi]. */
  ghost function Between(rings: seq<Ring>, lo: int, hi: int): set<Ring> { set r | r in rings && lo < r.id <= hi }

  /** The greatest id there is. */
  function Top(rings: seq<Ring>): int { if rings == [] then 0 else rings[|rings| - 1].id }

  lemma LastIsTop(rings: seq<Ring>)
    requires Ordered(rings)
    ensures forall r :: r in rings ==> r.id <= Top(rings)
  {
  }

  /** What is shown is what has a tag in common with the receiver, in id order. */
  ghost predicate Displays(rings: seq<Ring>, tags: seq<string>, floor: int, page: seq<Ring>, cursor: int) {
    && (forall r :: r in page <==>
          && r in rings && floor < r.id <= cursor
          && (r.tags == [] || exists i, j :: 0 <= i < |r.tags| && 0 <= j < |tags| && r.tags[i] == tags[j]))
    && (forall i, j :: 0 <= i < j < |page| ==> page[i].id < page[j].id)
  }

  /** Looking stops at a ring, when the page is full or twenty rings for each place on it, and at least 100, were looked at. */
  ghost predicate Looks(rings: seq<Ring>, floor: int, limit: nat, page: seq<Ring>, cursor: int, top: int) {
    var seen, batch := |Between(rings, floor, cursor)|, Min(Max(100, 20 * limit), |Between(rings, floor, top)|);
    && |page| <= limit && seen <= batch
    && (|page| < limit ==> seen == batch)
    && (|page| == limit ==> page != [] && Last(page).id == cursor)
    && (cursor == floor || (floor < cursor && exists r :: r in rings && r.id == cursor))
  }

  lemma {:induction false} OrderedSize(rows: seq<Ring>)
    requires Ordered(rows)
    ensures |set r | r in rows| == |rows|
  {
    var all := set r | r in rows;
    if rows == [] {
      assert all == {};
    } else {
      var rest, last := rows[..|rows| - 1], rows[|rows| - 1];
      OrderedSize(rest);
      assert all == (set r | r in rest) + {last};
    }
  }

  lemma InPrefix(above: seq<Ring>, floor: int, n: nat, r: Ring)
    requires Ordered(above) && n <= |above| && forall x :: x in above ==> floor < x.id
    ensures r in above[..n] <==> r in above && r.id <= CursorAt(above, floor, n)
  {
    if r in above {
      var k :| 0 <= k < |above| && above[k] == r;
      if k < n { assert above[..n][k] == r; }
    }
  }

  /** How many rings have been looked at. */
  lemma LookedAt(rings: seq<Ring>, floor: int, n: nat)
    requires Ordered(rings) && n <= |Above(rings, floor)|
    ensures |Between(rings, floor, CursorAt(Above(rings, floor), floor, n))| == n
  {
    var above := Above(rings, floor);
    AboveIsOrdered(rings, floor);
    OrderedPrefixes(above, n);
    OrderedSize(above[..n]);
    hide Ordered;
    var cursor := CursorAt(above, floor, n);
    forall r ensures r in Between(rings, floor, cursor) <==> r in above[..n] {
      InPrefix(above, floor, n, r);
    }
    assert Between(rings, floor, cursor) == set r | r in above[..n];
  }

  lemma AllLookedAt(rings: seq<Ring>, floor: int, top: int)
    requires Ordered(rings) && forall r :: r in rings ==> r.id <= top
    ensures |Between(rings, floor, top)| == |Above(rings, floor)|
  {
    AboveIsOrdered(rings, floor);
    OrderedSize(Above(rings, floor));
    assert Between(rings, floor, top) == set r | r in Above(rings, floor);
  }

  lemma {:induction false} MatchingIsOrdered(rings: seq<Ring>, tags: seq<string>, lo: int, hi: int)
    requires Ordered(rings)
    ensures Ordered(Matching(rings, tags, lo, hi))
  {
    if rings == [] {
    } else {
      hide TagsMatch;
      var rest, last := rings[..|rings| - 1], rings[|rings| - 1];
      MatchingIsOrdered(rest, tags, lo, hi);
      assert forall r :: r in Matching(rest, tags, lo, hi) ==> r.id < last.id;
    }
  }

  lemma PageShows(rings: seq<Ring>, tags: seq<string>, floor: int, limit: nat, page: seq<Ring>, cursor: int)
    requires Ordered(rings) && IsPage(rings, tags, floor, limit, page, cursor)
    ensures Displays(rings, tags, floor, page, cursor)
  {
    MatchingIsOrdered(rings, tags, floor, cursor);
    forall r: Ring ensures TagsMatch(tags, r.tags) <==> Shares(tags, r.tags) {
      MatchesMeans(tags, r.tags);
    }
    hide TagsMatch, Above, LooksUpTo;
  }

  lemma StopLooks(rings: seq<Ring>, floor: int, limit: nat, page: seq<Ring>, cursor: int, top: int, i: nat)
    requires Ordered(rings) && 1 <= limit <= 100 && |page| <= limit && i < Min(ScanLimit(limit), |Above(rings, floor)|)
    requires cursor == Above(rings, floor)[i].id
    requires StopsAt(Above(rings, floor), limit, page, Min(ScanLimit(limit), |Above(rings, floor)|), i)
    requires |Between(rings, floor, top)| == |Above(rings, floor)|
    ensures Looks(rings, floor, limit, page, cursor, top)
  {
    LookedAt(rings, floor, i + 1);
    ScanLimitIs(limit);
    hide Ordered, Between, ScanLimit;
    var above := Above(rings, floor);
    hide Above;
    assert above[i] in above;
  }

  lemma ScanLimitIs(limit: nat)
    requires 1 <= limit <= 100
    ensures ScanLimit(limit) == Max(100, 20 * limit)
  {
  }

  lemma NothingLooks(rings: seq<Ring>, tags: seq<string>, floor: int, limit: nat, top: int)
    requires Ordered(rings) && 1 <= limit <= 100 && Above(rings, floor) == []
    requires |Between(rings, floor, top)| == 0
    ensures Looks(rings, floor, limit, Matching(rings, tags, floor, floor), floor, top)
  {
    LookedAt(rings, floor, 0);
    LastMatch(rings, tags, floor, floor);
    hide Above, Ordered, Between, Matching;
  }

  /** A page in plain terms; `top` is any bound of the ids there are. */
  lemma PageLooks(rings: seq<Ring>, tags: seq<string>, floor: int, limit: nat, page: seq<Ring>, cursor: int, top: int)
    requires Ordered(rings) && 1 <= limit <= 100 && IsPage(rings, tags, floor, limit, page, cursor)
    requires forall r :: r in rings ==> r.id <= top
    ensures Looks(rings, floor, limit, page, cursor, top)
  {
    AllLookedAt(rings, floor, top);
    hide Matching, Above, Ordered, Between, Looks, StopsAt;
    var above := Above(rings, floor);
    if above == [] {
      NothingLooks(rings, tags, floor, limit, top);
    } else {
      var batch := Min(ScanLimit(limit), |above|);
      var i :| 0 <= i < batch && cursor == above[i].id && StopsAt(above, limit, page, batch, i);
      StopLooks(rings, floor, limit, page, cursor, top, i);
    }
  }

  // ----- the server -----

  datatype PullReceiver = PullReceiver(tags: seq<string>, enabled: bool, revoked: bool, acked: int)

  datatype Failure = Unauthorized | InvalidCursor

  datatype Result<+T> = Ok(value: T) | Err(error: Failure)

  /** A new receiver starts after the rings there are. */
  function InitialCursor(rings: seq<Ring>): int { if rings == [] then 0 else Last(rings).id }

  predicate Authenticates(receivers: map<Uuid, PullReceiver>, id: Uuid) {
    id in receivers && receivers[id].enabled && !receivers[id].revoked
  }

  class FeedServer {
    var rings: seq<Ring>
    var receivers: map<Uuid, PullReceiver>

    ghost predicate Valid()
      reads this
    {
      Ordered(rings)
    }

    constructor (history: seq<Ring>)
      requires Ordered(history)
      ensures Valid() && rings == history && receivers == map[]
    {
      rings, receivers := history, map[];
    }

    method CreatePullReceiver(id: Uuid, tags: seq<string>)
      requires Valid()
      modifies this`receivers
      ensures receivers == old(receivers)[id := PullReceiver(tags, true, false, if rings == [] then 0 else rings[|rings| - 1].id)]
      ensures forall r :: r in rings ==> r.id <= receivers[id].acked
    {
      receivers := receivers[id := PullReceiver(tags, true, false, InitialCursor(rings))];
    }

    /** `after` is the parsed cursor of the query, if it has one. */
    method ReceiverFeed(id: Uuid, after: Option<I64>, limit: Option<U32>) returns (r: Result<(seq<Ring>, int)>)
      requires Valid()
      ensures r == Err(Unauthorized) <==> id !in receivers || !receivers[id].enabled || receivers[id].revoked
      ensures r == Err(InvalidCursor) <==> r != Err(Unauthorized) && after.Some? && after.value < 0
      ensures r.Ok? ==>
                var floor := Max(if after.Some? then after.value else 0, receivers[id].acked);
                IsPage(rings, receivers[id].tags, floor, PageLimit(limit), r.value.0, r.value.1)
      ensures r.Ok? ==>
                var floor := Max(if after.Some? then after.value else 0, receivers[id].acked);
                var size := Min(Max(if limit.Some? then limit.value else 50, 1), 100);
                && (forall i, j :: 0 <= i < j < |r.value.0| ==> r.value.0[i].id < r.value.0[j].id)
                && Looks(rings, floor, size, r.value.0, r.value.1, Top(rings))
      ensures r.Ok? ==> forall x :: x in r.value.0 <==>
                && x in rings && (if after.Some? then after.value else 0) < x.id && receivers[id].acked < x.id <= r.value.1
                && (x.tags == [] || exists i, j :: 0 <= i < |x.tags| && 0 <= j < |receivers[id].tags| && x.tags[i] == receivers[id].tags[j])
    {
      if !Authenticates(receivers, id) {
        return Err(Unauthorized);
      }
      var receiver := receivers[id];
      if after.Some? && after.value < 0 {
        return Err(InvalidCursor);
      }
      var requested := if after.Some? then after.value else 0;
      var floor := Max(requested, receiver.acked);
      var page, cursor := Page(rings, receiver.tags, floor, PageLimit(limit));
      hide IsPage, Looks, Ordered;
      return Ok((page, cursor));
    }

    method Acknowledge(id: Uuid, cursor: I64) returns (r: Result<()>)
      modifies this`receivers
      ensures r == Err(Unauthorized) <==>
                id !in old(receivers) || !old(receivers)[id].enabled || old(receivers)[id].revoked
      ensures r == Err(InvalidCursor) <==> r != Err(Unauthorized) && cursor < 0
      ensures r.Err? ==> receivers == old(receivers)
      ensures r.Ok? ==>
                receivers == old(receivers)[id := old(receivers)[id].(acked := Max(old(receivers)[id].acked, cursor))]
    {
      if !Authenticates(receivers, id) {
        return Err(Unauthorized);
      }
      if cursor < 0 {
        return Err(InvalidCursor);
      }
      var receiver := receivers[id];
      receivers := receivers[id := receiver.(acked := Max(receiver.acked, cursor))];
      return Ok(());
    }
  }
}
