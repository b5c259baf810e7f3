/**
 The daily PnL index (metrics_store.py:60-176): two tables rebuilt per scope from the closed
 groups. Days are counted from 1970, as the UTC date of a millisecond timestamp gives them.
 */
module MetricsStore {
  import opened Common

  const DAY_MS: int := 86_400_000
  const TOTAL: string := "TOTAL"

  datatype Closed = Closed(closedMs: Option<int>, pnl: Option<real>, collateral: string, currency: string)

  datatype Key = Key(scope: string, day: int, book: string)

  datatype BookDay = BookDay(book: string, day: int)

  datatype Meta = Meta(fingerprint: string, closedCount: nat, syncedAtMs: int)

  function Upper(s: string): string {
    seq(|s|, k requires 0 <= k < |s| => if 'a' <= s[k] <= 'z' then s[k] - 'a' + 'A' else s[k])
  }

  predicate Realized(g: Closed) {
    g.closedMs.Some? && g.pnl.Some?
  }

  function DayOf(g: Closed): int {
    g.closedMs.GetOr(0) / DAY_MS
  }

  function BookOf(g: Closed): string {
    Upper(if g.collateral != "" then g.collateral else if g.currency != "" then g.currency else "USDC")
  }

  // ---- What the index should hold ----

  /** Realized PnL of a day: the scan the index replaces. */
  function DayPnl(closed: seq<Closed>, day: int): real {
    if closed == [] then 0.0
    else
      var g := closed[|closed| - 1];
      DayPnl(closed[..|closed| - 1], day) + if Realized(g) && DayOf(g) == day then g.pnl.value else 0.0
  }

  function BookPnl(closed: seq<Closed>, book: string, day: int): real {
    if closed == [] then 0.0
    else
      var g := closed[|closed| - 1];
      BookPnl(closed[..|closed| - 1], book, day)
      + if Realized(g) && DayOf(g) == day && BookOf(g) == book then g.pnl.value else 0.0
  }

  function RealizedCount(closed: seq<Closed>): nat {
    if closed == [] then 0
    else RealizedCount(closed[..|closed| - 1]) + if Realized(closed[|closed| - 1]) then 1 else 0
  }

  function Days(closed: seq<Closed>): set<int> {
    set g | g in closed && Realized(g) :: DayOf(g)
  }

  function BookDays(closed: seq<Closed>): set<BookDay> {
    set g | g in closed && Realized(g) :: BookDay(BookOf(g), DayOf(g))
  }

  predicate NamesTotal(closed: seq<Closed>) {
    exists g :: g in closed && Realized(g) && BookOf(g) == TOTAL
  }

  function TotalRows(scope: string, totals: map<int, real>): map<Key, real> {
    map key: Key | key in (set day | day in totals :: Key(scope, day, TOTAL)) :: totals[key.day]
  }

  function BookRows(scope: string, byBook: map<BookDay, real>): map<Key, real> {
    map key: Key | key in (set bd | bd in byBook :: Key(scope, bd.day, bd.book)) :: byBook[BookDay(key.book, key.day)]
  }

  function WithoutScope(table: map<Key, real>, scope: string): map<Key, real> {
    map key | key in table && key.scope != scope :: table[key]
  }

  /** The scope's part of the table is the index of these groups. */
  ghost predicate Indexes(table: map<Key, real>, scope: string, closed: seq<Closed>) {
    && (forall day :: Key(scope, day, TOTAL) in table <==> day in Days(closed))
    && (forall day :: day in Days(closed) ==> table[Key(scope, day, TOTAL)] == DayPnl(closed, day))
    && (forall day, book :: book != TOTAL ==> (Key(scope, day, book) in table <==> BookDay(book, day) in BookDays(closed)))
    && (forall day, book :: book != TOTAL && BookDay(book, day) in BookDays(closed) ==>
          table[Key(scope, day, book)] == BookPnl(closed, book, day))
  }

  ghost predicate SameElsewhere(before: map<Key, real>, after: map<Key, real>, scope: string) {
    forall key: Key :: key.scope != scope ==> (key in after <==> key in before) && (key in before ==> after[key] == before[key])
  }

  // ---- The store ----

  class Store {
    var table: map<Key, real>
    var meta: map<string, Meta>

    constructor ()
      ensures table == map[] && meta == map[]
    {
      table, meta := map[], map[];
    }

    /** False where the insertion violates the primary key and the transaction rolls back. */
    method SyncFromClosed(scope: string, fingerprint: string, closed: seq<Closed>, syncedAtMs: int) returns (ok: bool)
      modifies this
      ensures ok <==> !NamesTotal(closed)
      ensures ok ==> Indexes(table, scope, closed) && SameElsewhere(old(table), table, scope)
      ensures ok ==> meta == old(meta)[scope := Meta(fingerprint, RealizedCount(closed), syncedAtMs)]
      ensures !ok ==> table == old(table) && meta == old(meta)
    {
      var totals, byBook, count := Scan(closed);
      var totalRows, bookRows := TotalRows(scope, totals), BookRows(scope, byBook);
      ConflictExactly(scope, totals, byBook, closed);
      if !(totalRows.Keys !! bookRows.Keys) {
        return false;
      }
      IndexBuilt(table, scope, totals, byBook, closed);
      table := WithoutScope(table, scope) + totalRows + bookRows;
      meta := meta[scope := Meta(fingerprint, count, syncedAtMs)];
      return true;
    }

    predicate IsSynced(scope: string, fingerprint: string)
      reads this
    {
      scope in meta && meta[scope].fingerprint == fingerprint
    }

    function LoadDailyTotals(scope: string): map<int, real>
      reads this
    {
      TotalsIn(table, scope)
    }

    function LoadDailyByBook(scope: string): map<BookDay, real>
      reads this
    {
      ByBookIn(table, scope)
    }

    function ClosedCount(scope: string): nat
      reads this
    {
      if scope in meta then meta[scope].closedCount else 0
    }
  }

  function TotalsIn(table: map<Key, real>, scope: string): map<int, real> {
    map day | day in (set key | key in table && key.scope == scope && key.book == TOTAL :: key.day)
      :: table[Key(scope, day, TOTAL)]
  }

  function ByBookIn(table: map<Key, real>, scope: string): map<BookDay, real> {
    map bd: BookDay | bd in (set key | key in table && key.scope == scope && key.book != TOTAL :: BookDay(key.book, key.day))
      :: table[Key(scope, bd.day, bd.book)]
  }

  method Scan(closed: seq<Closed>) returns (totals: map<int, real>, byBook: map<BookDay, real>, count: nat)
    ensures totals.Keys == Days(closed) && forall day :: day in totals ==> totals[day] == DayPnl(closed, day)
    ensures byBook.Keys == BookDays(closed)
    ensures forall bd :: bd in byBook ==> byBook[bd] == BookPnl(closed, bd.book, bd.day)
    ensures count == RealizedCount(closed)
  {
    hide Days, BookDays, DayPnl, BookPnl, RealizedCount, DayOf, BookOf;
    totals, byBook, count := map[], map[], 0;
    NothingScanned();
    assert closed[..0] == [];
    for k := 0 to |closed|
      invariant totals.Keys == Days(closed[..k]) && forall day :: day in totals ==> totals[day] == DayPnl(closed[..k], day)
      invariant byBook.Keys == BookDays(closed[..k])
      invariant forall bd :: bd in byBook ==> byBook[bd] == BookPnl(closed[..k], bd.book, bd.day)
      invariant count == RealizedCount(closed[..k])
    {
      var g := closed[k];
      ScanStep(closed[..k], g);
      assert closed[..k + 1] == closed[..k] + [g];
      if !Realized(g) {
        continue;
      }
      count := count + 1;
      var day, pnl, book := DayOf(g), g.pnl.value, BookOf(g);
      var bd := BookDay(book, day);
      byBook := byBook[bd := (if bd in byBook then byBook[bd] else 0.0) + pnl];
      totals := totals[day := (if day in totals then totals[day] else 0.0) + pnl];
    }
    assert closed[..|closed|] == closed;
  }

  lemma NothingScanned()
    ensures Days([]) == {} && BookDays([]) == {} && RealizedCount([]) == 0
  {
  }

  lemma ScanStep(closed: seq<Closed>, g: Closed)
    ensures var after := closed + [g];
            && (forall day :: DayPnl(after, day) ==
                  DayPnl(closed, day) + if Realized(g) && DayOf(g) == day then g.pnl.value else 0.0)
            && (forall book, day :: BookPnl(after, book, day) ==
                  BookPnl(closed, book, day) + if Realized(g) && DayOf(g) == day && BookOf(g) == book then g.pnl.value else 0.0)
            && RealizedCount(after) == RealizedCount(closed) + (if Realized(g) then 1 else 0)
            && Days(after) == Days(closed) + (if Realized(g) then {DayOf(g)} else {})
            && BookDays(after) == BookDays(closed) + (if Realized(g) then {BookDay(BookOf(g), DayOf(g))} else {})
    ensures forall day :: day !in Days(closed) ==> DayPnl(closed, day) == 0.0
    ensures forall book, day :: BookDay(book, day) !in BookDays(closed) ==> BookPnl(closed, book, day) == 0.0
  {
    assert (closed + [g])[..|closed|] == closed;
    forall day | day !in Days(closed) ensures DayPnl(closed, day) == 0.0 {
      NoPnl(closed, day, "");
    }
    forall book, day | BookDay(book, day) !in BookDays(closed) ensures BookPnl(closed, book, day) == 0.0 {
      NoPnl(closed, day, book);
    }
  }

  lemma {:induction false} NoPnl(closed: seq<Closed>, day: int, book: string)
    ensures day !in Days(closed) ==> DayPnl(closed, day) == 0.0
    ensures BookDay(book, day) !in BookDays(closed) ==> BookPnl(closed, book, day) == 0.0
  {
    hide DayOf, BookOf;
    if closed != [] {
      var init := closed[..|closed| - 1];
      var g := closed[|closed| - 1];
      NoPnl(init, day, book);
      assert g in closed && forall h :: h in init ==> h in closed;
    }
  }

  lemma ConflictExactly(scope: string, totals: map<int, real>, byBook: map<BookDay, real>, closed: seq<Closed>)
    requires totals.Keys == Days(closed) && byBook.Keys == BookDays(closed)
    ensures TotalRows(scope, totals).Keys !! BookRows(scope, byBook).Keys <==> !NamesTotal(closed)
  {
    hide DayOf, BookOf;
    if g :| g in closed && Realized(g) && BookOf(g) == TOTAL {
      assert DayOf(g) in totals && BookDay(TOTAL, DayOf(g)) in byBook;
      assert Key(scope, DayOf(g), TOTAL) in TotalRows(scope, totals) && Key(scope, DayOf(g), TOTAL) in BookRows(scope, byBook);
    }
    if key :| key in TotalRows(scope, totals).Keys && key in BookRows(scope, byBook).Keys {
      var bd :| bd in byBook && Key(scope, bd.day, bd.book) == key;
      var g :| g in closed && Realized(g) && BookDay(BookOf(g), DayOf(g)) == bd;
      assert BookOf(g) == TOTAL;
    }
  }

  lemma IndexBuilt(table: map<Key, real>, scope: string, totals: map<int, real>, byBook: map<BookDay, real>, closed: seq<Closed>)
    requires totals.Keys == Days(closed) && forall day :: day in totals ==> totals[day] == DayPnl(closed, day)
    requires byBook.Keys == BookDays(closed)
    requires forall bd :: bd in byBook ==> byBook[bd] == BookPnl(closed, bd.book, bd.day)
    requires TotalRows(scope, totals).Keys !! BookRows(scope, byBook).Keys
    ensures var after := WithoutScope(table, scope) + TotalRows(scope, totals) + BookRows(scope, byBook);
            Indexes(after, scope, closed) && SameElsewhere(table, after, scope)
  {
    hide Days, BookDays, DayPnl, BookPnl;
    var totalRows, bookRows := TotalRows(scope, totals), BookRows(scope, byBook);
    forall day | day in totals ensures Key(scope, day, TOTAL) in totalRows && Key(scope, day, TOTAL) !in bookRows {
      assert Key(scope, day, TOTAL) in totalRows.Keys;
    }
    forall book, day | BookDay(book, day) in byBook
      ensures Key(scope, day, book) in bookRows && bookRows[Key(scope, day, book)] == byBook[BookDay(book, day)]
    {
      var bd := BookDay(book, day);
      assert Key(scope, bd.day, bd.book) == Key(scope, day, book);
    }
    forall book, day | Key(scope, day, book) in bookRows ensures BookDay(book, day) in byBook {
    }
    forall day | Key(scope, day, TOTAL) in bookRows ensures false {
      assert BookDay(TOTAL, day) in byBook;
      TotalDayKnown(closed, day);
    }
  }

  lemma TotalDayKnown(closed: seq<Closed>, day: int)
    requires BookDay(TOTAL, day) in BookDays(closed)
    ensures day in Days(closed)
  {
    hide DayOf, BookOf;
    var g :| g in closed && Realized(g) && BookDay(BookOf(g), DayOf(g)) == BookDay(TOTAL, day);
    assert DayOf(g) in Days(closed);
  }

  // ---- Totals agree with books ----

  function BooksPnl(closed: seq<Closed>, books: seq<string>, day: int): real {
    if books == [] then 0.0 else BookPnl(closed, books[0], day) + BooksPnl(closed, books[1..], day)
  }

  ghost predicate Covers(books: seq<string>, closed: seq<Closed>, day: int) {
    && (forall i, j :: 0 <= i < j < |books| ==> books[i] != books[j])
    && (forall bd :: bd in BookDays(closed) && bd.day == day ==> bd.book in books)
  }

  lemma {:induction false} BooksPnlStep(closed: seq<Closed>, g: Closed, books: seq<string>, day: int)
    requires forall i, j :: 0 <= i < j < |books| ==> books[i] != books[j]
    ensures BooksPnl(closed + [g], books, day) ==
            BooksPnl(closed, books, day) + if Realized(g) && DayOf(g) == day && BookOf(g) in books then g.pnl.value else 0.0
  {
    hide DayOf, BookOf, BookPnl;
    if books != [] {
      ScanStep(closed, g);
      BooksPnlStep(closed, g, books[1..], day);
    }
  }

  lemma {:induction false} NothingPerBook(books: seq<string>, day: int)
    ensures BooksPnl([], books, day) == 0.0
  {
    if books != [] {
      NothingPerBook(books[1..], day);
    }
  }

  /** A day's PnL is the sum over its books, however the books are listed. */
  lemma {:induction false} DayIsSumOfBooks(closed: seq<Closed>, books: seq<string>, day: int)
    requires Covers(books, closed, day)
    ensures BooksPnl(closed, books, day) == DayPnl(closed, day)
  {
    hide DayOf, BookOf;
    if closed == [] {
      NothingPerBook(books, day);
    } else {
      var init, g := closed[..|closed| - 1], closed[|closed| - 1];
      assert closed == init + [g];
      assert BookDays(closed) == BookDays(init) + (if Realized(g) then {BookDay(BookOf(g), DayOf(g))} else {}) by {
        ScanStep(init, g);
      }
      DayIsSumOfBooks(init, books, day);
      BooksPnlStep(init, g, books, day);
    }
  }

  /** The sum of a day's stored per-book values. */
  function StoredSum(byBook: map<BookDay, real>, books: seq<string>, day: int): real {
    if books == [] then 0.0
    else (if BookDay(books[0], day) in byBook then byBook[BookDay(books[0], day)] else 0.0) + StoredSum(byBook, books[1..], day)
  }

  lemma {:induction false} StoredSumIsBooksPnl(table: map<Key, real>, scope: string, closed: seq<Closed>, books: seq<string>, day: int)
    requires Indexes(table, scope, closed) && TOTAL !in books
    ensures StoredSum(ByBookIn(table, scope), books, day) == BooksPnl(closed, books, day)
  {
    hide BookDays, BookPnl, DayPnl, Days;
    if books != [] {
      StoredSumIsBooksPnl(table, scope, closed, books[1..], day);
      var bd := BookDay(books[0], day);
      LoadedBook(table, scope, bd);
      if bd !in BookDays(closed) {
        NoPnl(closed, day, books[0]);
      }
    }
  }

  lemma LoadedBook(table: map<Key, real>, scope: string, bd: BookDay)
    requires bd.book != TOTAL
    ensures bd in ByBookIn(table, scope) <==> Key(scope, bd.day, bd.book) in table
    ensures bd in ByBookIn(table, scope) ==> ByBookIn(table, scope)[bd] == table[Key(scope, bd.day, bd.book)]
  {
    var key := Key(scope, bd.day, bd.book);
    assert key in table ==> BookDay(key.book, key.day) == bd;
  }

  lemma LoadedDay(table: map<Key, real>, scope: string, day: int)
    ensures day in TotalsIn(table, scope) <==> Key(scope, day, TOTAL) in table
    ensures day in TotalsIn(table, scope) ==> TotalsIn(table, scope)[day] == table[Key(scope, day, TOTAL)]
  {
    var key := Key(scope, day, TOTAL);
    assert key in table ==> key.day == day;
  }

  /** What loads back after a sync: each day's total is the scan's, and the sum of that day's per-book rows. */
  lemma LoadedTotalsAgree(table: map<Key, real>, scope: string, closed: seq<Closed>, books: seq<string>)
    requires Indexes(table, scope, closed) && TOTAL !in books
    requires forall i, j :: 0 <= i < j < |books| ==> books[i] != books[j]
    requires forall bd :: bd in ByBookIn(table, scope) ==> bd.book in books
    requires !NamesTotal(closed)
    ensures TotalsIn(table, scope).Keys == Days(closed)
    ensures forall day :: day in Days(closed) ==>
              TotalsIn(table, scope)[day] == DayPnl(closed, day) == StoredSum(ByBookIn(table, scope), books, day)
  {
    hide Days, BookDays, DayPnl, BookPnl, TotalsIn, ByBookIn;
    forall day ensures day in TotalsIn(table, scope).Keys <==> day in Days(closed) {
      LoadedDay(table, scope, day);
    }
    forall day | day in Days(closed)
      ensures TotalsIn(table, scope)[day] == DayPnl(closed, day) == StoredSum(ByBookIn(table, scope), books, day)
    {
      LoadedDay(table, scope, day);
      forall bd | bd in BookDays(closed) ensures bd.book in books {
        NotTotal(closed, bd);
        LoadedBook(table, scope, bd);
      }
      StoredSumIsBooksPnl(table, scope, closed, books, day);
      DayIsSumOfBooks(closed, books, day);
    }
  }

  lemma NotTotal(closed: seq<Closed>, bd: BookDay)
    requires !NamesTotal(closed) && bd in BookDays(closed)
    ensures bd.book != TOTAL
  {
  }

  /** One realized group whose book is spelled "total" is enough to fail the sync. */
  lemma TotalBookFailsSync() returns (closed: seq<Closed>)
    ensures |closed| == 1 && closed[0].collateral == "total" && NamesTotal(closed)
  {
    var g := Closed(Some(0), Some(1.0), "total", "");
    closed := [g];
    assert BookOf(g) == TOTAL;
    assert g in closed && Realized(g);
  }

  // ---- Days and books of a group ----

  /** The day is the one the close falls in. */
  lemma DayHoldsTheClose(g: Closed)
    requires g.closedMs.Some?
    ensures DayOf(g) * DAY_MS <= g.closedMs.value < (DayOf(g) + 1) * DAY_MS
  {
  }

  lemma UpperTwice(s: string)
    ensures Upper(Upper(s)) == Upper(s)
  {
  }

  /** The collateral names the book, in any case; the currency only stands in for a missing one, and USDC for both. */
  lemma BookFollowsCollateral(g: Closed, other: string)
    ensures g.collateral != "" ==> BookOf(g) == BookOf(g.(currency := other)) == BookOf(g.(collateral := Upper(g.collateral)))
    ensures g.collateral == "" && g.currency != "" ==> BookOf(g) == BookOf(g.(collateral := g.currency))
    ensures g.collateral == "" == g.currency ==> BookOf(g) == "USDC"
    ensures g.collateral == "usdt" ==> BookOf(g) == "USDT"
  {
    UpperTwice(g.collateral);
  }

  // ---- Days add up ----

  /** Realized PnL of all groups, whenever they closed. */
  function RealizedPnl(closed: seq<Closed>): real {
    if closed == [] then 0.0
    else
      var g := closed[|closed| - 1];
      RealizedPnl(closed[..|closed| - 1]) + if Realized(g) then g.pnl.value else 0.0
  }

  function DaysPnl(closed: seq<Closed>, days: seq<int>): real {
    if days == [] then 0.0 else DayPnl(closed, days[0]) + DaysPnl(closed, days[1..])
  }

  lemma {:induction false} DaysPnlStep(closed: seq<Closed>, g: Closed, days: seq<int>)
    requires forall i, j :: 0 <= i < j < |days| ==> days[i] != days[j]
    ensures DaysPnl(closed + [g], days) == DaysPnl(closed, days) + if Realized(g) && DayOf(g) in days then g.pnl.value else 0.0
  {
    hide DayOf, DayPnl;
    if days != [] {
      ScanStep(closed, g);
      DaysPnlStep(closed, g, days[1..]);
    }
  }

  lemma {:induction false} NothingPerDay(days: seq<int>)
    ensures DaysPnl([], days) == 0.0
  {
    if days != [] {
      NothingPerDay(days[1..]);
    }
  }

  /** The days' totals add up to everything realized, each group counted once. */
  lemma {:induction false} DaysAddUp(closed: seq<Closed>, days: seq<int>)
    requires forall i, j :: 0 <= i < j < |days| ==> days[i] != days[j]
    requires forall day :: day in Days(closed) ==> day in days
    ensures DaysPnl(closed, days) == RealizedPnl(closed)
  {
    hide DayOf;
    if closed == [] {
      NothingPerDay(days);
    } else {
      var init, g := closed[..|closed| - 1], closed[|closed| - 1];
      assert closed == init + [g];
      assert Days(closed) == Days(init) + (if Realized(g) then {DayOf(g)} else {}) by {
        ScanStep(init, g);
      }
      DaysAddUp(init, days);
      DaysPnlStep(init, g, days);
    }
  }
}
