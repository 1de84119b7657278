/** Positions and the list logic of the add, edit and delete handlers. A
    portfolio is a Python list of dictionaries that the handlers change in
    place; `PositionList` is that list object. */
module Positions {
  import opened Common
  import opened QuoteCache

  /** A quantity as stored (a string in the source): Some(x) when float()
      accepts it, None otherwise. */
  type Quantity = Option<real>

  /** The keys `add_market_data` writes into a position: the quote's price and
      dividend yield, and `total_value` (None standing for 'N/A'). */
  datatype MarketFields = MarketFields(quote: Quote, totalValue: Option<real>)

  /** One position dictionary; `market` is None until market data is added. */
  datatype Position = Position(ticker: string, quantity: Quantity, market: Option<MarketFields>)

  /** The `{ticker, quantity}` dictionary that is saved. */
  datatype Row = Row(ticker: string, quantity: Quantity)

  /** No two positions share a ticker. */
  ghost predicate UniqueTickers(s: seq<Position>)
  {
    forall i, j :: 0 <= i < j < |s| ==> s[i].ticker != s[j].ticker
  }

  function UpperChar(c: char): char
  {
    if 'a' <= c <= 'z' then (c as int - 32) as char else c
  }

  /** `str.upper()` on ASCII letters. */
  function Upper(s: string): (r: string)
    ensures |r| == |s|
    ensures forall i :: 0 <= i < |r| ==> !('a' <= r[i] <= 'z')
    ensures forall i :: 0 <= i < |r| && !('a' <= s[i] <= 'z') ==> r[i] == s[i]
    ensures forall i :: 0 <= i < |s| && 'a' <= s[i] <= 'z' ==> r[i] == (s[i] as int - 32) as char
  {
    seq(|s|, i requires 0 <= i < |s| => UpperChar(s[i]))
  }

  /** A ticker that was upper-cased once stays the same when upper-cased
      again, so a stored ticker is unchanged when it is typed again. */
  lemma UpperIdempotent(s: string)
    ensures Upper(Upper(s)) == Upper(s)
  {
  }

  /** The two characters are the same letter in either case, or the same character. */
  predicate SameIgnoringCase(c: char, d: char)
  {
    || c == d
    || ('a' <= c <= 'z' && d as int == c as int - 32)
    || ('a' <= d <= 'z' && c as int == d as int - 32)
  }

  /** Tickers typed in different ASCII cases upper-case to the same string, so
      `add_position` finds a stored position whatever case the ticker is typed in. */
  lemma UpperIgnoresCase(s: string, t: string)
    requires |s| == |t| && forall i :: 0 <= i < |s| ==> SameIgnoringCase(s[i], t[i])
    ensures Upper(s) == Upper(t)
  {
  }

  /** Index of the first position with the ticker: where the handlers' loops
      stop at `break`. */
  function FirstIndex(s: seq<Position>, ticker: string): (r: Option<nat>)
    ensures r.Some? ==> r.value < |s| && s[r.value].ticker == ticker
    ensures r.Some? ==> forall j :: 0 <= j < r.value ==> s[j].ticker != ticker
    ensures r.None? <==> forall j :: 0 <= j < |s| ==> s[j].ticker != ticker
  {
    if |s| == 0 then None
    else if s[0].ticker == ticker then Some(0)
    else match FirstIndex(s[1..], ticker)
      case None => None
      case Some(i) => Some(i + 1)
  }

  /** The list `add_position` leaves: the first position with the ticker gets
      `newQuantity` added to its quantity, or a new position is appended when
      there is none. None when the matched quantity is not a number (float()
      raises and nothing is changed). */
  function Added(s: seq<Position>, ticker: string, newQuantity: real): (r: Option<seq<Position>>)
    ensures FirstIndex(s, ticker).None? ==> r == Some(s + [Position(ticker, Some(newQuantity), None)])
    ensures FirstIndex(s, ticker).Some? ==>
      var i := FirstIndex(s, ticker).value;
      && (r.Some? <==> s[i].quantity.Some?)
      && (r.Some? ==>
            && |r.value| == |s|
            && r.value[i] == s[i].(quantity := Some(s[i].quantity.value + newQuantity))
            && forall j :: 0 <= j < |s| && j != i ==> r.value[j] == s[j])
  {
    match FirstIndex(s, ticker)
    case None => Some(s + [Position(ticker, Some(newQuantity), None)])
    case Some(i) =>
      match s[i].quantity
      case None => None
      case Some(q) => Some(s[i := s[i].(quantity := Some(q + newQuantity))])
  }

  /** Adding keeps tickers unique. */
  lemma AddedKeepsUnique(s: seq<Position>, ticker: string, newQuantity: real)
    requires UniqueTickers(s) && Added(s, ticker, newQuantity).Some?
    ensures UniqueTickers(Added(s, ticker, newQuantity).value)
  {
  }

  /** The list `edit_position` leaves: only the first position with the ticker
      gets the new quantity; with no such position nothing changes. */
  function Edited(s: seq<Position>, ticker: string, quantity: Quantity): (r: seq<Position>)
    ensures |r| == |s|
    ensures forall j :: 0 <= j < |s| ==> r[j].ticker == s[j].ticker && r[j].market == s[j].market
    ensures FirstIndex(s, ticker).None? ==> r == s
    ensures FirstIndex(s, ticker).Some? ==>
      var i := FirstIndex(s, ticker).value;
      r[i].quantity == quantity && forall j :: 0 <= j < |s| && j != i ==> r[j] == s[j]
  {
    match FirstIndex(s, ticker)
    case None => s
    case Some(i) => s[i := s[i].(quantity := quantity)]
  }

  /** The list comprehension of `delete_position`: the positions without the
      ticker, in their original order. */
  function Without(s: seq<Position>, ticker: string): (r: seq<Position>)
    ensures |r| <= |s|
    ensures forall i :: 0 <= i < |r| ==> r[i].ticker != ticker
  {
    if |s| == 0 then []
    else (if s[0].ticker == ticker then [] else [s[0]]) + Without(s[1..], ticker)
  }

  /** The filter keeps exactly the positions without the ticker, and keeps the
      whole list when no position has it. */
  lemma {:induction false} WithoutKeeps(s: seq<Position>, ticker: string)
    ensures forall p :: p in Without(s, ticker) <==> p in s && p.ticker != ticker
    ensures FirstIndex(s, ticker).None? ==> Without(s, ticker) == s
  {
    if |s| > 0 {
      WithoutKeeps(s[1..], ticker);
      assert s == [s[0]] + s[1..];
    }
  }

  /** Filtering distributes over concatenation: what survives keeps its order. */
  lemma {:induction false} WithoutConcat(a: seq<Position>, b: seq<Position>, ticker: string)
    ensures Without(a + b, ticker) == Without(a, ticker) + Without(b, ticker)
  {
    if |a| == 0 {
      assert a + b == b;
    } else {
      var head := if a[0].ticker == ticker then [] else [a[0]];
      assert (a + b)[1..] == a[1..] + b;
      WithoutConcat(a[1..], b, ticker);
      calc {
        Without(a + b, ticker);
        head + Without(a[1..] + b, ticker);
        head + (Without(a[1..], ticker) + Without(b, ticker));
        (head + Without(a[1..], ticker)) + Without(b, ticker);
      }
    }
  }

  /** Replacing a position of the deleted ticker by another one of the same
      ticker does not change what the filter keeps. */
  lemma {:induction false} WithoutIgnoresUpdate(s: seq<Position>, i: nat, p: Position, ticker: string)
    requires i < |s| && s[i].ticker == ticker && p.ticker == ticker
    ensures Without(s[i := p], ticker) == Without(s, ticker)
  {
    if i > 0 {
      assert s[i := p][1..] == s[1..][i - 1 := p];
      WithoutIgnoresUpdate(s[1..], i - 1, p, ticker);
    }
  }

  /** Deleting a ticker undoes adding to it: the other positions are exactly
      those before the add. */
  lemma AddThenDelete(s: seq<Position>, ticker: string, newQuantity: real)
    requires Added(s, ticker, newQuantity).Some?
    ensures Without(Added(s, ticker, newQuantity).value, ticker) == Without(s, ticker)
  {
    var r := Added(s, ticker, newQuantity).value;
    match FirstIndex(s, ticker)
    case None =>
      WithoutConcat(s, [Position(ticker, Some(newQuantity), None)], ticker);
    case Some(i) =>
      assert r == s[i := r[i]];
      WithoutIgnoresUpdate(s, i, r[i], ticker);
  }

  /** Deleting a ticker undoes editing it. */
  lemma EditThenDelete(s: seq<Position>, ticker: string, quantity: Quantity)
    ensures Without(Edited(s, ticker, quantity), ticker) == Without(s, ticker)
  {
    match FirstIndex(s, ticker)
    case None =>
    case Some(i) =>
      var r := Edited(s, ticker, quantity);
      assert r == s[i := r[i]];
      WithoutIgnoresUpdate(s, i, r[i], ticker);
  }

  /** The projection `save_portfolio` makes: same length and order, only the
      ticker and the quantity of each position. */
  function Project(s: seq<Position>): (r: seq<Row>)
    ensures |r| == |s|
    ensures forall i :: 0 <= i < |s| ==> r[i].ticker == s[i].ticker && r[i].quantity == s[i].quantity
  {
    seq(|s|, i requires 0 <= i < |s| => Row(s[i].ticker, s[i].quantity))
  }

  /** Market fields never reach the saved rows: two lists that agree on
      tickers and quantities project to the same rows. */
  lemma ProjectIgnoresMarket(s: seq<Position>, s': seq<Position>)
    requires |s| == |s'|
    requires forall i :: 0 <= i < |s| ==> s[i].ticker == s'[i].ticker && s[i].quantity == s'[i].quantity
    ensures Project(s) == Project(s')
  {
  }

  /** The positions `csv.DictReader` yields for stored rows: no market fields. */
  function FromRows(rows: seq<Row>): (r: seq<Position>)
    ensures Project(r) == rows
    ensures forall i :: 0 <= i < |r| ==> r[i].market.None?
  {
    seq(|rows|, i requires 0 <= i < |rows| => Position(rows[i].ticker, rows[i].quantity, None))
  }

  /** The Python list object holding one user's positions. */
  class PositionList {
    var items: seq<Position>

    constructor (init: seq<Position>)
      ensures items == init
    {
      items := init;
    }

    /** The list logic of `add_position`: upper-case the ticker, then merge into
        the first matching position (for ... break) or append (for ... else).
        `ok` is false when float() raises on the stored quantity. */
    method AddPosition(rawTicker: string, newQuantity: real) returns (ok: bool)
      modifies this
      ensures ok == Added(old(items), Upper(rawTicker), newQuantity).Some?
      ensures items == if ok then Added(old(items), Upper(rawTicker), newQuantity).value else old(items)
      ensures UniqueTickers(old(items)) ==> UniqueTickers(items)
    {
      var ticker := Upper(rawTicker);
      var i := 0;
      while i < |items|
        invariant 0 <= i <= |items|
        invariant items == old(items)
        invariant forall j :: 0 <= j < i ==> items[j].ticker != ticker
      {
        if items[i].ticker == ticker {
          assert FirstIndex(items, ticker) == Some(i);
          match items[i].quantity
          case None =>
            return false;
          case Some(q) =>
            items := items[i := items[i].(quantity := Some(q + newQuantity))];
            return true;
        }
        i := i + 1;
      }
      items := items + [Position(ticker, Some(newQuantity), None)];
      ok := true;
    }

    /** The list logic of `edit_position`: the first position with the ticker
        gets the new quantity in place. */
    method EditPosition(ticker: string, quantity: Quantity)
      modifies this
      ensures items == Edited(old(items), ticker, quantity)
      ensures UniqueTickers(old(items)) ==> UniqueTickers(items)
    {
      var i := 0;
      while i < |items|
        invariant 0 <= i <= |items|
        invariant items == old(items)
        invariant forall j :: 0 <= j < i ==> items[j].ticker != ticker
      {
        if items[i].ticker == ticker {
          assert FirstIndex(items, ticker) == Some(i);
          items := items[i := items[i].(quantity := quantity)];
          return;
        }
        i := i + 1;
      }
    }
  }
}
