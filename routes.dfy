/** The handlers that change a portfolio (`add_position`, `edit_position`,
    `delete_position`) and the full-read path (`read_portfolio`), composed
    from the caches, the list logic and the save queue. A signed-in user is
    assumed throughout (the handlers sit behind `login_required`). */
module Routes {
  import opened Common
  import opened QuoteCache
  import opened Positions
  import opened PortfolioCache
  import opened SaveQueue
  import opened Valuation

  /** The positions `get_cached_portfolio` hands a handler at time `now`. */
  function CachedItems(table: PortfolioTable, email: string, now: int, driveRead: seq<Row>): seq<Position>
    reads if Hit(table, email, now) then {table[email].value} else {}
  {
    if Hit(table, email, now) then table[email].value.items else FromRows(driveRead)
  }

  /** The table `get_cached_portfolio` leaves when it returns `list`. */
  predicate CacheAfterRead(before: PortfolioTable, after: PortfolioTable, email: string, now: int, list: PositionList)
  {
    if Hit(before, email, now) then after == before
    else after == before[email := Entry(list, now)]
  }

  /** `add_position`: read the cached list, merge or append in place, queue the
      save, then add market data to the same list object, which is what is
      rendered. The cache entry keeps the timestamp of the read; `ok` is false
      when float() raises on the stored quantity, and then nothing is saved. */
  method AddPosition(portfolios: PortfolioCache, quotes: MarketDataCache, saves: SaveQueue, email: string,
                     rawTicker: string, newQuantity: real, now: int, driveRead: seq<Row>, provider: string -> Reply)
    returns (ok: bool, shown: PositionList)
    requires quotes.Valid()
    modifies portfolios, quotes, saves, portfolios.Lists()
    ensures quotes.Valid() && saves.store == old(saves.store)
    ensures CacheAfterRead(old(portfolios.table), portfolios.table, email, now, shown)
    ensures portfolios.table[email].value == shown
    ensures portfolios.Lists() <= old(portfolios.Lists()) + {shown}
    ensures shown in old(portfolios.Lists()) || fresh(shown)
    ensures forall l :: l in old(portfolios.Lists()) && l != shown ==> l.items == old(l.items)
    ensures var added := Added(old(CachedItems(portfolios.table, email, now, driveRead)), Upper(rawTicker), newQuantity);
      && ok == added.Some?
      && (!ok ==> shown.items == old(CachedItems(portfolios.table, email, now, driveRead)))
      && (!ok ==> saves.pending == old(saves.pending) && quotes.table == old(quotes.table))
      && (ok ==> saves.pending == old(saves.pending) + [Job(email, Project(added.value))])
      && (ok ==> Valued(shown.items) && ValuedFrom(shown.items, added.value, quotes.table))
      && (ok ==> LookedUp(old(quotes.table), quotes.table, Tickers(added.value), now, provider))
  {
    ghost var before := CachedItems(portfolios.table, email, now, driveRead);
    shown := portfolios.GetCachedPortfolio(email, now, driveRead);
    assert shown.items == before;
    ok := shown.AddPosition(rawTicker, newQuantity);
    if ok {
      ghost var added := Added(before, Upper(rawTicker), newQuantity).value;
      assert shown.items == added;
      SaveAndValue(shown, quotes, saves, email, now, provider);
    }
  }

  /** The positions `shown` are the positions `items` (same order, tickers and
      quantities), each carrying the fields of its ticker's quote in `table`. */
  ghost predicate ValuedFrom(shown: seq<Position>, items: seq<Position>, table: QuoteTable)
  {
    && |shown| == |items|
    && Project(shown) == Project(items)
    && forall i :: 0 <= i < |items| ==>
         && items[i].ticker in table
         && shown[i] == items[i].(market := Some(Valuate(table[items[i].ticker].value, items[i].quantity)))
  }

  /** The end of `add_position`: queue the save of the changed list, then add
      market data to that same list object. */
  method SaveAndValue(list: PositionList, quotes: MarketDataCache, saves: SaveQueue, email: string,
                      now: int, provider: string -> Reply)
    requires quotes.Valid()
    modifies list, quotes, saves
    ensures quotes.Valid() && saves.store == old(saves.store)
    ensures saves.pending == old(saves.pending) + [Job(email, Project(old(list.items)))]
    ensures Valued(list.items) && ValuedFrom(list.items, old(list.items), quotes.table)
    ensures LookedUp(old(quotes.table), quotes.table, Tickers(old(list.items)), now, provider)
  {
    saves.SavePortfolio(Some(email), list.items);
    AddMarketData(list, quotes, now, provider);
  }

  /** `edit_position`: the cached list is changed in place and saved. */
  method EditPosition(portfolios: PortfolioCache, saves: SaveQueue, email: string,
                      ticker: string, quantity: Quantity, now: int, driveRead: seq<Row>)
    modifies portfolios, saves, portfolios.Lists()
    ensures saves.store == old(saves.store)
    ensures email in portfolios.table
    ensures CacheAfterRead(old(portfolios.table), portfolios.table, email, now, portfolios.table[email].value)
    ensures portfolios.Lists() <= old(portfolios.Lists()) + {portfolios.table[email].value}
    ensures var edited := Edited(old(CachedItems(portfolios.table, email, now, driveRead)), ticker, quantity);
      && portfolios.table[email].value.items == edited
      && saves.pending == old(saves.pending) + [Job(email, Project(edited))]
    ensures forall l :: l in old(portfolios.Lists()) && l != portfolios.table[email].value ==> l.items == old(l.items)
  {
    var list := portfolios.GetCachedPortfolio(email, now, driveRead);
    list.EditPosition(ticker, quantity);
    saves.SavePortfolio(Some(email), list.items);
  }

  /** `delete_position` as written: the filtered list is a NEW list; it is
      saved, but the cached list object keeps the deleted position. */
  method DeletePosition(portfolios: PortfolioCache, saves: SaveQueue, email: string,
                        ticker: string, now: int, driveRead: seq<Row>)
    modifies portfolios, saves
    ensures saves.store == old(saves.store)
    ensures email in portfolios.table
    ensures CacheAfterRead(old(portfolios.table), portfolios.table, email, now, portfolios.table[email].value)
    ensures portfolios.Lists() <= old(portfolios.Lists()) + {portfolios.table[email].value}
    ensures var before := old(CachedItems(portfolios.table, email, now, driveRead));
      && portfolios.table[email].value.items == before
      && saves.pending == old(saves.pending) + [Job(email, Project(Without(before, ticker)))]
  {
    var list := portfolios.GetCachedPortfolio(email, now, driveRead);
    var portfolio := Without(list.items, ticker);
    saves.SavePortfolio(Some(email), portfolio);
  }

  /** `delete_position` with the filtered list written back into the cached
      list object (`portfolio[:] = ...`), as the other handlers do with their
      changes. */
  method DeletePositionWriteBack(portfolios: PortfolioCache, saves: SaveQueue, email: string,
                                 ticker: string, now: int, driveRead: seq<Row>)
    modifies portfolios, saves, portfolios.Lists()
    ensures saves.store == old(saves.store)
    ensures email in portfolios.table
    ensures CacheAfterRead(old(portfolios.table), portfolios.table, email, now, portfolios.table[email].value)
    ensures var remaining := Without(old(CachedItems(portfolios.table, email, now, driveRead)), ticker);
      && portfolios.table[email].value.items == remaining
      && saves.pending == old(saves.pending) + [Job(email, Project(remaining))]
    ensures forall l :: l in old(portfolios.Lists()) && l != portfolios.table[email].value ==> l.items == old(l.items)
  {
    var list := portfolios.GetCachedPortfolio(email, now, driveRead);
    list.items := Without(list.items, ticker);
    saves.SavePortfolio(Some(email), list.items);
  }

  /** `read_portfolio`, the index page's path: always a fresh drive read,
      bypassing the portfolio cache, then market data. */
  method ReadPortfolio(quotes: MarketDataCache, now: int, driveRead: seq<Row>, provider: string -> Reply)
    returns (portfolio: PositionList)
    requires quotes.Valid()
    modifies quotes
    ensures quotes.Valid() && fresh(portfolio)
    ensures Valued(portfolio.items) && Project(portfolio.items) == driveRead
    ensures ValuedFrom(portfolio.items, FromRows(driveRead), quotes.table)
    ensures LookedUp(old(quotes.table), quotes.table, Tickers(FromRows(driveRead)), now, provider)
  {
    portfolio := new PositionList(FromRows(driveRead));
    AddMarketData(portfolio, quotes, now, provider);
  }

  /** Once the worker has written every queued job, a user whose last job was
      a delete of `ticker` has no row for it in their file, whatever the
      earlier jobs (adds, edits) were. */
  lemma DeleteIsLastWord(store: Store, jobs: seq<Job>, email: string, before: seq<Position>, ticker: string)
    requires LastFor(jobs, email) == Some(Project(Without(before, ticker)))
    ensures var out := Drain(store, jobs, AllSucceed(|jobs|));
      email in out && forall k :: 0 <= k < |out[email]| ==> out[email][k].ticker != ticker
  {
    LastWriteWins(store, jobs, email);
    var rows := Project(Without(before, ticker));
    forall k | 0 <= k < |rows| ensures rows[k].ticker != ticker {
      assert Without(before, ticker)[k] in Without(before, ticker);
    }
  }

  /** The as-written delete leaves the deleted position in the cache, so an add
      of another ticker within the cache window saves it again: deleting AAPL
      from [AAPL 5] saves no rows, yet adding MSFT to the cached [AAPL 5]
      saves an AAPL row. */
  lemma DeleteThenAddResurrects()
    ensures var cached := [Position("AAPL", Some(5.0), None)];
      && Without(cached, "AAPL") == []
      && Added(cached, Upper("msft"), 1.0) == Some(cached + [Position("MSFT", Some(1.0), None)])
      && Project(cached + [Position("MSFT", Some(1.0), None)]) == [Row("AAPL", Some(5.0)), Row("MSFT", Some(1.0))]
  {
    var cached := [Position("AAPL", Some(5.0), None)];
    assert Upper("msft") == "MSFT";
    assert FirstIndex(cached, "MSFT").None? by {
      assert cached[0].ticker != "MSFT";
    }
    assert Without(cached, "AAPL") == [] by {
      assert cached[1..] == [];
    }
  }

  /** With the write-back delete, a later add or edit of another ticker builds
      on the filtered list, so the deleted ticker stays out of what is saved. */
  lemma DeleteWriteBackStaysDeleted(s: seq<Position>, ticker: string, other: string, newQuantity: real, quantity: Quantity)
    requires other != ticker
    ensures var remaining := Without(s, ticker);
      && (Added(remaining, other, newQuantity).Some? ==>
            forall r :: r in Project(Added(remaining, other, newQuantity).value) ==> r.ticker != ticker)
      && forall r :: r in Project(Edited(remaining, other, quantity)) ==> r.ticker != ticker
  {
  }

  /** A position the add leaves in place: whether the add merged, appended or
      failed on a non-numeric quantity, the list then holds the ticker. */
  lemma AddLeavesTicker(s: seq<Position>, ticker: string, newQuantity: real, shown: seq<Position>)
    requires Added(s, ticker, newQuantity).Some? ==> Project(shown) == Project(Added(s, ticker, newQuantity).value)
    requires Added(s, ticker, newQuantity).None? ==> shown == s
    ensures FirstIndex(shown, ticker).Some?
  {
    var a := Added(s, ticker, newQuantity);
    var j := if FirstIndex(s, ticker).Some? then FirstIndex(s, ticker).value else |s|;
    if a.Some? {
      assert a.value[j].ticker == ticker;
      assert Project(shown)[j] == Project(a.value)[j];
    }
    assert shown[j].ticker == ticker;
  }

  /** Editing a listed ticker puts its row, with the new quantity, in the projection. */
  lemma EditedRow(s: seq<Position>, ticker: string, quantity: Quantity)
    requires FirstIndex(s, ticker).Some?
    ensures Row(ticker, quantity) in Project(Edited(s, ticker, quantity))
  {
  }

  /** The routes as written, one user at one time with [AAPL 5] cached: delete
      AAPL queues an empty portfolio, but the cached list still holds AAPL, so
      adding 1 MSFT next queues AAPL again. */
  method DeleteThenAdd(portfolios: PortfolioCache, quotes: MarketDataCache, saves: SaveQueue, email: string,
                       now: int, driveRead: seq<Row>, provider: string -> Reply)
    requires quotes.Valid()
    requires Hit(portfolios.table, email, now)
    requires portfolios.table[email].value.items == [Position("AAPL", Some(5.0), None)]
    modifies portfolios, quotes, saves, portfolios.Lists()
    ensures saves.pending == old(saves.pending) + [Job(email, []), Job(email, [Row("AAPL", Some(5.0)), Row("MSFT", Some(1.0))])]
  {
    DeleteThenAddResurrects();
    DeletePosition(portfolios, saves, email, "AAPL", now, driveRead);
    var ok, shown := AddPosition(portfolios, quotes, saves, email, "msft", 1.0, now, driveRead, provider);
  }

  /** The same two requests with the corrected delete, which writes the
      filtered list back: the add's save no longer holds AAPL. */
  method DeleteWriteBackThenAdd(portfolios: PortfolioCache, quotes: MarketDataCache, saves: SaveQueue, email: string,
                                now: int, driveRead: seq<Row>, provider: string -> Reply)
    requires quotes.Valid()
    requires Hit(portfolios.table, email, now)
    requires portfolios.table[email].value.items == [Position("AAPL", Some(5.0), None)]
    modifies portfolios, quotes, saves, portfolios.Lists()
    ensures saves.pending == old(saves.pending) + [Job(email, []), Job(email, [Row("MSFT", Some(1.0))])]
  {
    ghost var cached := [Position("AAPL", Some(5.0), None)];
    assert Without(cached, "AAPL") == [] by {
      assert cached[1..] == [];
    }
    DeletePositionWriteBack(portfolios, saves, email, "AAPL", now, driveRead);
    assert CachedItems(portfolios.table, email, now, driveRead) == [];
    assert Upper("msft") == "MSFT";
    ghost var empty: seq<Position> := [];
    ghost var resaved := [Position("MSFT", Some(1.0), None)];
    assert empty + resaved == resaved;
    assert Added(empty, "MSFT", 1.0) == Some(resaved);
    var ok, shown := AddPosition(portfolios, quotes, saves, email, "msft", 1.0, now, driveRead, provider);
    assert Project(resaved) == [Row("MSFT", Some(1.0))];
  }

  /** The add step of the scenario below: after adding 5 AAPL the cached list
      holds AAPL and is what the next read at the same time returns. */
  method AddAapl(portfolios: PortfolioCache, quotes: MarketDataCache, saves: SaveQueue, email: string,
                 now: int, driveRead: seq<Row>, provider: string -> Reply)
    returns (added: bool, shown: PositionList)
    requires quotes.Valid()
    modifies portfolios, quotes, saves, portfolios.Lists()
    ensures added == Added(old(CachedItems(portfolios.table, email, now, driveRead)), "AAPL", 5.0).Some?
    ensures saves.store == old(saves.store)
    ensures |saves.pending| == |old(saves.pending)| + (if added then 1 else 0)
    ensures saves.pending[..|old(saves.pending)|] == old(saves.pending)
    ensures added ==> saves.pending[|old(saves.pending)|] == Job(email, Project(shown.items))
    ensures portfolios.Lists() <= old(portfolios.Lists()) + {shown}
    ensures shown in old(portfolios.Lists()) || fresh(shown)
    ensures CachedItems(portfolios.table, email, now, driveRead) == shown.items
    ensures FirstIndex(shown.items, "AAPL").Some?
  {
    ghost var s0 := CachedItems(portfolios.table, email, now, driveRead);
    added, shown := AddPosition(portfolios, quotes, saves, email, "aapl", 5.0, now, driveRead, provider);
    assert Upper("aapl") == "AAPL";
    AddLeavesTicker(s0, "AAPL", 5.0, shown.items);
    assert Hit(portfolios.table, email, now);
  }

  /** The edit and delete steps of the scenario below, on a cached list that
      holds AAPL: two jobs are queued, the edit's holding the new AAPL row and
      the delete's the rows of `beforeDelete` without AAPL. */
  method EditDeleteAapl(portfolios: PortfolioCache, saves: SaveQueue, email: string, now: int, driveRead: seq<Row>)
    returns (ghost beforeDelete: seq<Position>)
    requires FirstIndex(CachedItems(portfolios.table, email, now, driveRead), "AAPL").Some?
    modifies portfolios, saves, portfolios.Lists()
    ensures saves.store == old(saves.store)
    ensures |saves.pending| == |old(saves.pending)| + 2
    ensures saves.pending[..|old(saves.pending)|] == old(saves.pending)
    ensures var edit := saves.pending[|saves.pending| - 2];
      edit.email == email && Row("AAPL", Some(8.0)) in edit.rows
    ensures saves.pending[|saves.pending| - 1] == Job(email, Project(Without(beforeDelete, "AAPL")))
    ensures CachedItems(portfolios.table, email, now, driveRead) == beforeDelete
  {
    ghost var edited := Edited(CachedItems(portfolios.table, email, now, driveRead), "AAPL", Some(8.0));
    EditedRow(CachedItems(portfolios.table, email, now, driveRead), "AAPL", Some(8.0));
    EditPosition(portfolios, saves, email, "AAPL", Some(8.0), now, driveRead);
    beforeDelete := CachedItems(portfolios.table, email, now, driveRead);
    DeletePosition(portfolios, saves, email, "AAPL", now, driveRead);
    assert saves.pending == old(saves.pending) + [Job(email, Project(edited)), Job(email, Project(Without(beforeDelete, "AAPL")))];
  }

  /** The three routes in a row for one user at one time: add 5 AAPL (typed in
      lower case), set the quantity to 8, delete AAPL. The jobs are queued in
      request order: the add's (when it succeeds), the edit's holding the new
      AAPL row, and last the delete's, the rows of `beforeDelete` without AAPL. */
  method AddEditDelete(portfolios: PortfolioCache, quotes: MarketDataCache, saves: SaveQueue, email: string,
                       now: int, driveRead: seq<Row>, provider: string -> Reply)
    returns (added: bool, ghost beforeDelete: seq<Position>)
    requires quotes.Valid()
    modifies portfolios, quotes, saves, portfolios.Lists()
    ensures added == Added(old(CachedItems(portfolios.table, email, now, driveRead)), "AAPL", 5.0).Some?
    ensures saves.store == old(saves.store)
    ensures |saves.pending| == |old(saves.pending)| + (if added then 3 else 2)
    ensures saves.pending[..|old(saves.pending)|] == old(saves.pending)
    ensures added ==> var job := saves.pending[|old(saves.pending)|];
      job.email == email && exists k :: 0 <= k < |job.rows| && job.rows[k].ticker == "AAPL"
    ensures var edit := saves.pending[|saves.pending| - 2];
      edit.email == email && Row("AAPL", Some(8.0)) in edit.rows
    ensures saves.pending[|saves.pending| - 1] == Job(email, Project(Without(beforeDelete, "AAPL")))
    ensures CachedItems(portfolios.table, email, now, driveRead) == beforeDelete
  {
    ghost var queued := saves.pending;
    var shown;
    added, shown := AddAapl(portfolios, quotes, saves, email, now, driveRead, provider);
    ghost var afterAdd := saves.pending;
    ghost var i := FirstIndex(shown.items, "AAPL").value;
    assert Project(shown.items)[i].ticker == "AAPL";
    beforeDelete := EditDeleteAapl(portfolios, saves, email, now, driveRead);
    assert saves.pending[..|afterAdd|] == afterAdd;
    assert saves.pending[..|queued|] == afterAdd[..|queued|];
  }

  /** The three routes, then the worker runs every queued save: `queued` is
      the queue it ran, in request order with the delete's save last, and the
      user's stored portfolio ends without AAPL. */
  method AddEditDeleteSaved(portfolios: PortfolioCache, quotes: MarketDataCache, saves: SaveQueue, email: string,
                            now: int, driveRead: seq<Row>, provider: string -> Reply)
    returns (added: bool, ghost queued: seq<Job>)
    requires quotes.Valid()
    modifies portfolios, quotes, saves, portfolios.Lists()
    ensures added == Added(old(CachedItems(portfolios.table, email, now, driveRead)), "AAPL", 5.0).Some?
    ensures |queued| == |old(saves.pending)| + (if added then 3 else 2)
    ensures queued[..|old(saves.pending)|] == old(saves.pending)
    ensures added ==> var job := queued[|old(saves.pending)|];
      job.email == email && exists k :: 0 <= k < |job.rows| && job.rows[k].ticker == "AAPL"
    ensures queued[|queued| - 2].email == email && Row("AAPL", Some(8.0)) in queued[|queued| - 2].rows
    ensures var last := queued[|queued| - 1];
      last.email == email && forall k :: 0 <= k < |last.rows| ==> last.rows[k].ticker != "AAPL"
    ensures saves.pending == [] && saves.store == Drain(old(saves.store), queued, AllSucceed(|queued|))
    ensures email in saves.store && forall k :: 0 <= k < |saves.store[email]| ==> saves.store[email][k].ticker != "AAPL"
  {
    ghost var beforeDelete;
    added, beforeDelete := AddEditDelete(portfolios, quotes, saves, email, now, driveRead, provider);
    queued := saves.pending;
    ghost var initial := saves.store;
    saves.RunPending(AllSucceed(|saves.pending|));
    DeleteIsLastWord(initial, queued, email, beforeDelete, "AAPL");
  }

}
