/** The client list, one page at a time: a keyset query and the rule for the next cursor. */
module Paging {
  import opened Wrappers
  import opened Int64

  const DEFAULT_LIMIT: nat := 50
  const MAX_LIMIT: nat := 200

  // ----- the order of codes

  /** Byte order on codes. */
  predicate Less(a: string, b: string) {
    if b == "" then false
    else if a == "" then true
    else if a[0] != b[0] then a[0] < b[0]
    else Less(a[1..], b[1..])
  }

  /** a is before b: it is a proper beginning of it, or smaller at the first difference, after k equal bytes. */
  predicate DiffersAt(a: string, b: string, k: nat) {
    && k <= |a| && k < |b| && a[..k] == b[..k]
    && (k < |a| ==> a[k] < b[k])
  }

  /** The first bytes already tell which comes first. */
  lemma DiffersAtOnce(a: string, b: string)
    requires a != "" && b != "" && a[0] != b[0]
    ensures (exists k :: 0 <= k < |b| && DiffersAt(a, b, k)) <==> a[0] < b[0]
  {
    if a[0] < b[0] {
      assert DiffersAt(a, b, 0);
    }
    forall k | 0 < k < |b| ensures !DiffersAt(a, b, k) {
      if k <= |a| {
        assert a[..k][0] != b[..k][0];
      }
    }
  }

  lemma DiffersLater(a: string, b: string, k: nat)
    requires a != "" && b != "" && a[0] == b[0]
    ensures DiffersAt(a, b, k + 1) <==> DiffersAt(a[1..], b[1..], k)
    ensures !DiffersAt(a, b, 0)
  {
    if k + 1 <= |a| && k + 1 <= |b| {
      assert a[..k + 1] == [a[0]] + a[1..][..k] && b[..k + 1] == [b[0]] + b[1..][..k];
      assert a[1..][..k] == a[..k + 1][1..] && b[1..][..k] == b[..k + 1][1..];
    }
  }

  lemma {:induction false} LessIff(a: string, b: string)
    ensures Less(a, b) <==> exists k :: 0 <= k < |b| && DiffersAt(a, b, k)
  {
    if a == "" {
      assert b != "" ==> DiffersAt(a, b, 0);
    } else if b != "" && a[0] != b[0] {
      DiffersAtOnce(a, b);
    } else if b != "" {
      LessIff(a[1..], b[1..]);
      hide DiffersAt;
      if k :| 0 <= k < |b[1..]| && DiffersAt(a[1..], b[1..], k) {
        DiffersLater(a, b, k);
        assert DiffersAt(a, b, k + 1);
      }
      if k :| 0 <= k < |b| && DiffersAt(a, b, k) {
        DiffersLater(a, b, if k > 0 then k - 1 else 0);
        assert DiffersAt(a[1..], b[1..], k - 1);
      }
    }
  }

  lemma {:induction false} LessTrans(a: string, b: string, c: string)
    requires Less(a, b) && Less(b, c)
    ensures Less(a, c)
  {
    if a != "" && a[0] == b[0] && b[0] == c[0] {
      LessTrans(a[1..], b[1..], c[1..]);
    }
  }

  lemma {:induction false} LessIrreflexive(a: string)
    ensures !Less(a, a)
  {
    if a != "" {
      LessIrreflexive(a[1..]);
    }
  }

  lemma {:induction false} LessTotal(a: string, b: string)
    ensures Less(a, b) || a == b || Less(b, a)
  {
    if a != "" && b != "" && a[0] == b[0] {
      LessTotal(a[1..], b[1..]);
      assert a == [a[0]] + a[1..] && b == [b[0]] + b[1..];
    }
  }

  // ----- one request

  /** The whole listing: codes are unique, not empty, and in order. */
  predicate Listing(rows: seq<string>) {
    && (forall i, j :: 0 <= i < j < |rows| ==> Less(rows[i], rows[j]))
    && (forall i :: 0 <= i < |rows| ==> rows[i] != "")
  }

  /** where client_code > after order by client_code */
  function Above(rows: seq<string>, after: string): seq<string> {
    if rows == [] then []
    else (if Less(after, rows[0]) then [rows[0]] else []) + Above(rows[1..], after)
  }

  /** ... limit n */
  function Query(rows: seq<string>, limit: nat, after: string): seq<string> {
    var all := Above(rows, after);
    if |all| <= limit then all else all[..limit]
  }

  /** The cursor: the last code of a full page, and nothing otherwise. */
  function Next(page: seq<string>, limit: nat): string {
    if |page| == limit && page != [] then page[|page| - 1] else ""
  }

  datatype PageError = NotANumber | OutOfBounds

  /** The bounded page size; `raw` is the parsed parameter, absent when it was not given. */
  function PageSize(raw: Option<Result<int, PageError>>): Result<nat, PageError> {
    match raw
    case None => Success(DEFAULT_LIMIT)
    case Some(Failure(_)) => Failure(NotANumber)
    case Some(Success(n)) => if n < 1 || n > MAX_LIMIT then Failure(OutOfBounds) else Success(n)
  }

  /** The size asked for is the one used, from 1 to 200; without one it is 50. */
  lemma PageSizeIs(raw: Option<Result<int, PageError>>)
    ensures raw.None? ==> PageSize(raw) == Success(50)
    ensures raw.Some? && raw.value.Failure? ==> PageSize(raw) == Failure(NotANumber)
    ensures raw.Some? && raw.value.Success? ==>
      PageSize(raw) == if 1 <= raw.value.value <= 200 then Success(raw.value.value) else Failure(OutOfBounds)
  {
  }

  method ListClients(rows: seq<string>, raw: Option<Result<int, PageError>>, after: string)
    returns (r: Result<(seq<string>, string), PageError>)
    ensures r.Failure? <==> PageSize(raw).Failure?
    ensures r.Failure? ==> r.error == PageSize(raw).error
    ensures r.Success? ==>
      var limit := PageSize(raw).value;
      1 <= limit <= MAX_LIMIT && r.value == (Query(rows, limit, after), Next(Query(rows, limit, after), limit))
  {
    var size := PageSize(raw);
    if size.Failure? {
      return Failure(size.error);
    }
    var limit := size.value;
    var clients := Query(rows, limit, after);
    var views: seq<string> := [];
    for i := 0 to |clients|
      invariant views == clients[..i]
    {
      views := views + [clients[i]];
    }
    assert clients[..|clients|] == clients;
    var next := "";
    if |clients| == limit {
      next := clients[|clients| - 1];
    }
    return Success((views, next));
  }

  // ----- a walk over a table that does not change

  /** How many rows the query passes over. */
  function Passed(rows: seq<string>, after: string): (k: nat)
    ensures k <= |rows|
  {
    if rows == [] || Less(after, rows[0]) then 0 else 1 + Passed(rows[1..], after)
  }

  lemma {:induction false} AboveIsRest(rows: seq<string>, after: string)
    requires Listing(rows)
    ensures Above(rows, after) == rows[Passed(rows, after)..]
  {
    if rows != [] {
      AboveIsRest(rows[1..], after);
      if Less(after, rows[0]) && |rows| > 1 {
        LessTrans(after, rows[0], rows[1]);
        assert Passed(rows[1..], after) == 0;
      }
    }
  }

  /** After the k-th row the query passes over exactly the rows up to it. */
  lemma {:induction false} PassedAt(rows: seq<string>, k: nat)
    requires Listing(rows) && k < |rows|
    ensures Passed(rows, rows[k]) == k + 1
  {
    var after := rows[k];
    assert !Less(after, rows[0]) by {
      if Less(after, rows[0]) && k > 0 {
        LessTrans(after, rows[0], rows[k]);
      }
      LessIrreflexive(rows[k]);
    }
    if k == 0 {
      assert |rows| > 1 ==> Less(after, rows[1..][0]);
    } else {
      PassedAt(rows[1..], k - 1);
    }
  }

  /** The cursor that asks for the rows from position k on. */
  function Cursor(rows: seq<string>, k: nat): string
    requires k <= |rows|
  {
    if k == 0 then "" else rows[k - 1]
  }

  lemma CursorAsks(rows: seq<string>, k: nat)
    requires Listing(rows) && k <= |rows|
    ensures Above(rows, Cursor(rows, k)) == rows[k..]
  {
    AboveIsRest(rows, Cursor(rows, k));
    if k > 0 {
      PassedAt(rows, k - 1);
    }
  }

  lemma {:induction false} AboveShorter(rows: seq<string>, limit: nat, after: string)
    requires Listing(rows) && limit >= 1
    ensures Next(Query(rows, limit, after), limit) != "" ==>
      |Above(rows, Next(Query(rows, limit, after), limit))| < |Above(rows, after)|
  {
    AboveIsRest(rows, after);
    var k := Passed(rows, after);
    if Next(Query(rows, limit, after), limit) != "" {
      assert Query(rows, limit, after) == rows[k..k + limit];
      CursorAsks(rows, k + limit);
    }
  }

  /** Following the cursor until it is empty. */
  function Walk(rows: seq<string>, limit: nat, after: string): seq<seq<string>>
    requires Listing(rows) && limit >= 1
    decreases |Above(rows, after)|
  {
    var page := Query(rows, limit, after);
    AboveShorter(rows, limit, after);
    if Next(page, limit) == "" then [page] else [page] + Walk(rows, limit, Next(page, limit))
  }

  function Concat(pages: seq<seq<string>>): seq<string> {
    if pages == [] then [] else pages[0] + Concat(pages[1..])
  }

  lemma PageAtCursor(rows: seq<string>, limit: nat, k: nat)
    requires Listing(rows) && limit >= 1 && k <= |rows|
    ensures
      var page := Query(rows, limit, Cursor(rows, k));
      if |rows| - k < limit then page == rows[k..] && Next(page, limit) == ""
      else page == rows[k..k + limit] && Next(page, limit) == Cursor(rows, k + limit) && Next(page, limit) != ""
  {
    CursorAsks(rows, k);
  }

  lemma {:induction false} WalkFrom(rows: seq<string>, limit: nat, k: nat)
    requires Listing(rows) && limit >= 1 && k <= |rows|
    ensures Concat(Walk(rows, limit, Cursor(rows, k))) == rows[k..]
    ensures |Walk(rows, limit, Cursor(rows, k))| == (|rows| - k) / limit + 1
    decreases |rows| - k
  {
    hide Query, Next, Cursor, Listing;
    PageAtCursor(rows, limit, k);
    var walk := Walk(rows, limit, Cursor(rows, k));
    if |rows| - k < limit {
      assert walk == [rows[k..]];
      OnePage(rows[k..]);
      FloorUnique(|rows| - k, limit, 0);
    } else {
      var rest := Walk(rows, limit, Cursor(rows, k + limit));
      assert walk == [rows[k..k + limit]] + rest;
      WalkFrom(rows, limit, k + limit);
      FirstPage(rows[k..k + limit], rest);
      assert rows[k..k + limit] + rows[k + limit..] == rows[k..];
      NextQuotient(|rows| - k, limit);
    }
  }

  lemma OnePage(page: seq<string>)
    ensures Concat([page]) == page
  {
    assert [page][1..] == [];
  }

  lemma FirstPage(page: seq<string>, rest: seq<seq<string>>)
    ensures Concat([page] + rest) == page + Concat(rest)
  {
    assert ([page] + rest)[1..] == rest;
  }

  lemma NextQuotient(n: nat, d: nat)
    requires d >= 1 && n >= d
    ensures n / d == (n - d) / d + 1
  {
    FloorBounds(n - d, d);
    FloorUnique(n, d, (n - d) / d + 1);
  }

  /** Following the cursor lists every client once, in code order, in n / limit + 1 requests. */
  lemma WalkListsEverything(rows: seq<string>, limit: nat)
    requires Listing(rows) && limit >= 1
    ensures Concat(Walk(rows, limit, "")) == rows
    ensures |Walk(rows, limit, "")| == |rows| / limit + 1
  {
    WalkFrom(rows, limit, 0);
    assert rows[0..] == rows;
  }

  // ----- a walk over a table that grows between requests

  /** Later listings hold every earlier code. */
  predicate Growing(tables: seq<seq<string>>) {
    && (forall i :: 0 <= i < |tables| ==> Listing(tables[i]))
    && (forall i, j, c :: 0 <= i <= j < |tables| && c in tables[i] ==> c in tables[j])
  }

  /** The codes read by successive requests, and whether the cursor ran out. */
  function WalkOver(tables: seq<seq<string>>, limit: nat, after: string): (seq<string>, bool) {
    if tables == [] then ([], false)
    else
      var page := Query(tables[0], limit, after);
      var next := Next(page, limit);
      if next == "" then (page, true)
      else
        var (rest, done) := WalkOver(tables[1..], limit, next);
        (page + rest, done)
  }

  lemma {:induction false} AboveHolds(rows: seq<string>, after: string, c: string)
    ensures c in Above(rows, after) <==> c in rows && Less(after, c)
  {
    if rows != [] {
      AboveHolds(rows[1..], after, c);
      assert rows == [rows[0]] + rows[1..];
    }
  }

  /** A page is in order, past the cursor, and misses nothing up to its own last code. */
  lemma PageSound(rows: seq<string>, limit: nat, after: string, c: string)
    requires Listing(rows) && limit >= 1
    ensures
      var page := Query(rows, limit, after);
      && Listing(page)
      && (c in page ==> c in rows && Less(after, c))
      && (c in rows && Less(after, c) && c !in page ==> Next(page, limit) != "" && Less(Next(page, limit), c))
  {
    AboveIsRest(rows, after);
    AboveHolds(rows, after, c);
    var all, page := Above(rows, after), Query(rows, limit, after);
    if c in all && c !in page {
      var i :| 0 <= i < |all| && all[i] == c;
      assert i >= limit && page[|page| - 1] == all[limit - 1];
    }
  }

  /**
    Codes read from past `after`: in strict order, from the last table, and, for a code c of the
    first table, missing it only if the walk is unfinished and has not got that far.
   */
  predicate ReadsSoundly(first: seq<string>, last: seq<string>, after: string, c: string, codes: seq<string>,
                         done: bool) {
    && Listing(codes) && (forall i :: 0 <= i < |codes| ==> Less(after, codes[i]))
    && (c in codes ==> c in last)
    && (c in first && Less(after, c) && c !in codes ==> !done && codes != [] && Less(codes[|codes| - 1], c))
  }

  /** One page, and whether it was the last. */
  lemma PageReads(rows: seq<string>, limit: nat, after: string, c: string)
    requires Listing(rows) && limit >= 1
    ensures ReadsSoundly(rows, rows, after, c, Query(rows, limit, after), Next(Query(rows, limit, after), limit) == "")
  {
    PageSound(rows, limit, after, c);
    PageAfter(rows, limit, after);
    hide Query, Less, Listing;
  }

  /** A page with a cursor, and what is read from there on in later tables. */
  lemma ReadsJoin(rows: seq<string>, second: seq<string>, last: seq<string>, after: string, c: string,
                  page: seq<string>, rest: seq<string>, done: bool)
    requires page != [] && ReadsSoundly(rows, rows, after, c, page, false)
    requires ReadsSoundly(second, last, page[|page| - 1], c, rest, done)
    requires c in rows ==> c in second && c in last
    ensures ReadsSoundly(rows, last, after, c, page + rest, done)
  {
    var next := page[|page| - 1];
    JoinedListing(page, rest, next);
    forall i | 0 <= i < |rest| ensures Less(after, rest[i]) {
      LessTrans(after, next, rest[i]);
    }
    if c in page {
      assert c in page + rest;
    }
    hide Less, Listing;
  }

  /**
    Clients registered during a walk cause no repeat and no skip: what is read is in strict
    code order, every code read exists, and a finished walk has read every code that was there
    at its first request. An unfinished one has read all of those up to its last code.
   */
  lemma {:induction false} GrowingWalk(tables: seq<seq<string>>, limit: nat, after: string, c: string)
    requires Growing(tables) && limit >= 1 && tables != []
    ensures
      var (codes, done) := WalkOver(tables, limit, after);
      && Listing(codes) && (forall i :: 0 <= i < |codes| ==> Less(after, codes[i]))
      && (c in codes ==> c in tables[|tables| - 1])
      && (c in tables[0] && Less(after, c) && c !in codes ==>
            !done && codes != [] && Less(codes[|codes| - 1], c))
    decreases |tables|
  {
    var page := Query(tables[0], limit, after);
    var next := Next(page, limit);
    PageReads(tables[0], limit, after, c);
    hide Query, Less, Listing;
    if |tables| == 1 {
      assert tables[1..] == [] && page + [] == page;
    } else {
      GrowingTail(tables);
      if next != "" {
        GrowingWalk(tables[1..], limit, next, c);
        var (rest, done) := WalkOver(tables[1..], limit, next);
        ReadsJoin(tables[0], tables[1], tables[|tables| - 1], after, c, page, rest, done);
      }
    }
  }

  lemma GrowingTail(tables: seq<seq<string>>)
    requires Growing(tables) && |tables| >= 2
    ensures Growing(tables[1..]) && tables[1..][0] == tables[1]
    ensures tables[1..][|tables[1..]| - 1] == tables[|tables| - 1]
    ensures forall c :: c in tables[0] ==> c in tables[1] && c in tables[|tables| - 1]
  {
  }

  lemma PageAfter(rows: seq<string>, limit: nat, after: string)
    requires Listing(rows) && limit >= 1
    ensures forall i :: 0 <= i < |Query(rows, limit, after)| ==> Less(after, Query(rows, limit, after)[i])
  {
    var page := Query(rows, limit, after);
    forall i | 0 <= i < |page| ensures Less(after, page[i]) {
      PageSound(rows, limit, after, page[i]);
    }
  }

  lemma JoinedListing(page: seq<string>, rest: seq<string>, next: string)
    requires Listing(page) && Listing(rest) && page != [] && next == page[|page| - 1]
    requires forall i :: 0 <= i < |rest| ==> Less(next, rest[i])
    ensures Listing(page + rest)
  {
    forall i, j | 0 <= i < |page| && 0 <= j < |rest| ensures Less(page[i], rest[j]) {
      if i < |page| - 1 {
        LessTrans(page[i], next, rest[j]);
      }
    }
  }
}
