/** The per-user portfolio cache (`portfolio_cache`) and `get_cached_portfolio`.
    The cache holds the list OBJECT it returns, so a handler that changes that
    list in place changes what later cache hits return. The drive read is not
    modelled: each call is given the rows the read would yield. */
module PortfolioCache {
  import opened Common
  import opened Positions

  /** Lifetime of a cached portfolio, in seconds. */
  const CACHE_DURATION: int := 60

  type PortfolioTable = map<string, Entry<PositionList>>

  /** The user has an entry young enough to be served without a drive read. */
  predicate Hit(table: PortfolioTable, email: string, now: int)
  {
    email in table && Live(table[email], now, CACHE_DURATION)
  }

  class PortfolioCache {
    var table: PortfolioTable

    constructor ()
      ensures table == map[]
    {
      table := map[];
    }

    /** The list objects the cache holds; the handlers may change any of them. */
    function Lists(): (r: set<PositionList>)
      reads this
      ensures forall u :: u in table ==> table[u].value in r
    {
      set u | u in table :: table[u].value
    }

    /** `get_cached_portfolio(email)` at time `now`; `driveRead` stands for the
        rows `read_portfolio_from_drive` would return (empty on its errors). A
        hit returns the cached list object and leaves the table; a miss stores
        a new list of the rows read, stamped `now`. */
    method GetCachedPortfolio(email: string, now: int, driveRead: seq<Row>) returns (list: PositionList)
      modifies this
      ensures Hit(old(table), email, now) ==> list == old(table)[email].value && table == old(table)
      ensures !Hit(old(table), email, now) ==>
        && fresh(list) && list.items == FromRows(driveRead)
        && table == old(table)[email := Entry(list, now)]
      ensures list in old(Lists()) || fresh(list)
      ensures Hit(table, email, now) && table[email].value == list
    {
      if email in table {
        var entry := table[email];
        if now - entry.timestamp < CACHE_DURATION {
          return entry.value;
        }
      }
      list := new PositionList(FromRows(driveRead));
      table := table[email := Entry(list, now)];
    }
  }
}
