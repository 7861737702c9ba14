/** The migration that moved the price of a quote onto its lines, and its way back. */
module PurchaseMigration {
  import opened Money
  import opened Options
  import opened Uuids

  datatype Price = Price(unit: Cents, quantity: int)

  // A stored line of a quote; a linked line reads its quantity through its request line.
  datatype QuoteLine = QuoteLine(quote: Uuid, requestItem: Option<Uuid>, unit: Cents,
                                 description: Option<string>, quantity: Option<int>, position: int)

  type Lines = map<Uuid, QuoteLine>

  const FALLBACK_DESCRIPTION := "Item do orçamento"

  // `btrim`: spaces only.
  function TrimLeft(s: string): string {
    if s != [] && s[0] == ' ' then TrimLeft(s[1..]) else s
  }

  function TrimRight(s: string): string {
    if s != [] && s[|s| - 1] == ' ' then TrimRight(s[..|s| - 1]) else s
  }

  // `left(COALESCE(NULLIF(btrim(title), ''), fallback), 255)`
  function FoldedDescription(title: string): string {
    var trimmed := TrimRight(TrimLeft(title));
    var text := if trimmed == [] then FALLBACK_DESCRIPTION else trimmed;
    if |text| <= 255 then text else text[..255]
  }

  /** Whatever the title, a folded line has a description the column accepts. */
  lemma FoldedDescriptionFits(title: string)
    ensures 0 < |FoldedDescription(title)| <= 255
  {
  }

  // ---------------------------------------------------------------------------
  // Upgrade
  // ---------------------------------------------------------------------------

  ghost predicate Injective(ids: map<Uuid, Uuid>) {
    forall x, y :: x in ids && y in ids && ids[x] == ids[y] ==> x == y
  }

  // Every quote has a price, and is given a new id no other quote is given.
  ghost predicate Foldable(quotes: map<Uuid, Uuid>, prices: map<Uuid, Price>, generated: map<Uuid, Uuid>) {
    prices.Keys == quotes.Keys == generated.Keys && Injective(generated)
  }

  // One line per quote joined with its request, under a freshly generated id.
  function Folded(titles: map<Uuid, string>, quotes: map<Uuid, Uuid>, prices: map<Uuid, Price>,
                  generated: map<Uuid, Uuid>): Lines
    requires Foldable(quotes, prices, generated)
  {
    map q | q in quotes && quotes[q] in titles ::
      generated[q] := QuoteLine(q, None, prices[q].unit, Some(FoldedDescription(titles[quotes[q]])),
                                Some(prices[q].quantity), 0)
  }

  // ---------------------------------------------------------------------------
  // Downgrade
  // ---------------------------------------------------------------------------

  predicate Precedes(lines: Lines, x: Uuid, y: Uuid)
    requires x in lines && y in lines
  {
    lines[x].position < lines[y].position
    || (lines[x].position == lines[y].position && x.number <= y.number)
  }

  // The line of a quote with the lowest (position, id).
  predicate IsFirst(lines: Lines, quote: Uuid, id: Uuid) {
    id in lines && lines[id].quote == quote
    && forall other :: other in lines && lines[other].quote == quote ==> Precedes(lines, id, other)
  }

  lemma {:induction false} FirstExists(lines: Lines, quote: Uuid, among: set<Uuid>) returns (id: Uuid)
    requires among != {} && forall i :: i in among ==> i in lines && lines[i].quote == quote
    ensures id in among && forall other :: other in among ==> Precedes(lines, id, other)
    decreases among
  {
    id :| id in among;
    assert forall other :: other in among ==> other == id || other in among - {id};
    if among - {id} != {} {
      var rest := FirstExists(lines, quote, among - {id});
      if Precedes(lines, rest, id) { id := rest; }
    }
  }

  function OfQuote(lines: Lines, quote: Uuid): set<Uuid> {
    set id | id in lines && lines[id].quote == quote
  }

  lemma FirstOfQuote(lines: Lines, quote: Uuid)
    requires OfQuote(lines, quote) != {}
    ensures exists id :: IsFirst(lines, quote, id)
  {
    var id := FirstExists(lines, quote, OfQuote(lines, quote));
    assert IsFirst(lines, quote, id);
  }

  function FirstLine(lines: Lines, quote: Uuid): (id: Uuid)
    requires OfQuote(lines, quote) != {}
    ensures IsFirst(lines, quote, id)
  {
    FirstOfQuote(lines, quote);
    var id :| IsFirst(lines, quote, id);
    id
  }

  // `COALESCE(own quantity, request line's quantity, 1)`
  function Quantity(line: QuoteLine, requestLines: map<Uuid, int>): int {
    if line.quantity.Some? then line.quantity.value
    else if line.requestItem.Some? && line.requestItem.value in requestLines then requestLines[line.requestItem.value]
    else 1
  }

  function FirstUnit(lines: Lines, quote: Uuid): Option<Cents> {
    if OfQuote(lines, quote) == {} then None else Some(lines[FirstLine(lines, quote)].unit)
  }

  function FirstQuantity(lines: Lines, requestLines: map<Uuid, int>, quote: Uuid): Option<int> {
    if OfQuote(lines, quote) == {} then None else Some(Quantity(lines[FirstLine(lines, quote)], requestLines))
  }

  function Coalesce(value: Option<int>, default: int): int {
    if value.Some? then value.value else default
  }

  // The price and quantity a quote goes back to.
  function Restored(lines: Lines, requestLines: map<Uuid, int>, quote: Uuid): Price {
    Price(Coalesce(FirstUnit(lines, quote), 0), Coalesce(FirstQuantity(lines, requestLines, quote), 1))
  }

  // ---------------------------------------------------------------------------
  // What the migration keeps
  // ---------------------------------------------------------------------------

  function OldTotal(p: Price): Cents { PriceTotal(p.unit, p.quantity) }

  function StoredLineTotal(line: QuoteLine, requestLines: map<Uuid, int>): Cents {
    PriceTotal(line.unit, Quantity(line, requestLines))
  }

  // The total of a quote: the sum over its lines.
  ghost function TotalOver(lines: Lines, requestLines: map<Uuid, int>, ids: set<Uuid>): Cents
    requires forall id :: id in ids ==> id in lines
    decreases |ids|
  {
    if ids == {} then 0
    else
      var id :| id in ids;
      StoredLineTotal(lines[id], requestLines) + TotalOver(lines, requestLines, ids - {id})
  }

  ghost function QuoteTotal(lines: Lines, requestLines: map<Uuid, int>, quote: Uuid): Cents {
    TotalOver(lines, requestLines, OfQuote(lines, quote))
  }

  lemma FoldedLines(titles: map<Uuid, string>, quotes: map<Uuid, Uuid>, prices: map<Uuid, Price>,
                    generated: map<Uuid, Uuid>, quote: Uuid)
    requires Foldable(quotes, prices, generated)
    requires (forall q :: q in quotes ==> quotes[q] in titles) && quote in quotes
    ensures OfQuote(Folded(titles, quotes, prices, generated), quote) == {generated[quote]}
  {
    var lines := Folded(titles, quotes, prices, generated);
    assert generated[quote] in lines && lines[generated[quote]].quote == quote;
  }

  /** The upgrade folds every quote of a legacy database into exactly one line, and the
      derived total is the old unit price times quantity. */
  lemma UpgradeKeepsTotals(titles: map<Uuid, string>, quotes: map<Uuid, Uuid>, prices: map<Uuid, Price>,
                           generated: map<Uuid, Uuid>, quote: Uuid)
    requires Foldable(quotes, prices, generated)
    requires (forall q :: q in quotes ==> quotes[q] in titles) && quote in quotes
    ensures var lines := Folded(titles, quotes, prices, generated);
            |OfQuote(lines, quote)| == 1 && QuoteTotal(lines, map[], quote) == OldTotal(prices[quote])
  {
    FoldedLines(titles, quotes, prices, generated, quote);
    hide PriceTotal;
    var lines := Folded(titles, quotes, prices, generated);
    var id := generated[quote];
    assert lines[id].unit == prices[quote].unit && lines[id].quantity == Some(prices[quote].quantity);
    assert {id} - {id} == {};
    assert TotalOver(lines, map[], {id}) == StoredLineTotal(lines[id], map[]);
  }

  lemma RestoredAfterFold(titles: map<Uuid, string>, quotes: map<Uuid, Uuid>, prices: map<Uuid, Price>,
                          generated: map<Uuid, Uuid>, quote: Uuid)
    requires Foldable(quotes, prices, generated)
    requires (forall q :: q in quotes ==> quotes[q] in titles) && quote in quotes
    ensures Restored(Folded(titles, quotes, prices, generated), map[], quote) == prices[quote]
  {
    var lines := Folded(titles, quotes, prices, generated);
    FoldedLines(titles, quotes, prices, generated, quote);
    assert FirstLine(lines, quote) in OfQuote(lines, quote);
  }

  /** Downgrading right after upgrading restores every price and quantity exactly. */
  lemma RoundTrip(titles: map<Uuid, string>, quotes: map<Uuid, Uuid>, prices: map<Uuid, Price>,
                  generated: map<Uuid, Uuid>)
    requires Foldable(quotes, prices, generated)
    requires forall q :: q in quotes ==> quotes[q] in titles
    ensures var lines := Folded(titles, quotes, prices, generated);
            (map q | q in quotes :: Restored(lines, map[], q)) == prices
  {
    hide Folded, Restored;
    forall q | q in quotes ensures Restored(Folded(titles, quotes, prices, generated), map[], q) == prices[q] {
      RestoredAfterFold(titles, quotes, prices, generated, q);
    }
  }

  // A quote folded into one line: its total is the old one, and so is what the way back gives.
  ghost predicate KeptAsOneLine(lines: Lines, quote: Uuid, before: Price) {
    && |OfQuote(lines, quote)| == 1
    && QuoteTotal(lines, map[], quote) == OldTotal(before)
    && Restored(lines, map[], quote) == before
  }

  lemma FoldKeeps(titles: map<Uuid, string>, quotes: map<Uuid, Uuid>, prices: map<Uuid, Price>,
                  generated: map<Uuid, Uuid>)
    requires Foldable(quotes, prices, generated)
    requires forall q :: q in quotes ==> quotes[q] in titles
    ensures var lines := Folded(titles, quotes, prices, generated);
            forall q :: q in quotes ==> KeptAsOneLine(lines, q, prices[q])
  {
    hide Folded, QuoteTotal, Restored, OldTotal, OfQuote;
    var lines := Folded(titles, quotes, prices, generated);
    forall q | q in quotes ensures KeptAsOneLine(lines, q, prices[q]) {
      UpgradeKeepsTotals(titles, quotes, prices, generated, q);
      RestoredAfterFold(titles, quotes, prices, generated, q);
    }
  }

  lemma {:induction false} TotalBounds(lines: Lines, requestLines: map<Uuid, int>, ids: set<Uuid>, id: Uuid)
    requires forall i :: i in ids ==> i in lines && 0 <= StoredLineTotal(lines[i], requestLines)
    ensures 0 <= TotalOver(lines, requestLines, ids)
    ensures id in ids ==> StoredLineTotal(lines[id], requestLines) <= TotalOver(lines, requestLines, ids)
    decreases |ids|
  {
    hide StoredLineTotal;
    if ids != {} {
      var first :| first in ids && TotalOver(lines, requestLines, ids)
                     == StoredLineTotal(lines[first], requestLines) + TotalOver(lines, requestLines, ids - {first});
      TotalBounds(lines, requestLines, ids - {first}, id);
    }
  }

  ghost predicate NoneNegative(lines: Lines, requestLines: map<Uuid, int>) {
    forall id :: id in lines ==> 0 <= lines[id].unit && 0 <= Quantity(lines[id], requestLines)
  }

  /** The way back loses the other lines: on any later database a downgraded quote totals
      its lowest (position, id) line, or 0.00 when it has no line; so never more than before
      when prices and quantities are not negative. */
  lemma DowngradedTotal(lines: Lines, requestLines: map<Uuid, int>, quote: Uuid)
    ensures var total := OldTotal(Restored(lines, requestLines, quote));
            && (forall id :: IsFirst(lines, quote, id) ==> total == StoredLineTotal(lines[id], requestLines))
            && (OfQuote(lines, quote) == {} ==> total == 0)
            && (NoneNegative(lines, requestLines) ==> 0 <= total <= QuoteTotal(lines, requestLines, quote))
  {
    forall id | id in lines
      ensures NoneNegative(lines, requestLines) ==> 0 <= StoredLineTotal(lines[id], requestLines) {
      PriceTotalIsExact(lines[id].unit, Quantity(lines[id], requestLines));
    }
    PriceTotalIsExact(0, 1);
    var ids := OfQuote(lines, quote);
    hide StoredLineTotal, NoneNegative;
    assert forall id :: IsFirst(lines, quote, id) ==> id in ids;
    if ids != {} {
      var first := FirstLine(lines, quote);
      forall id | IsFirst(lines, quote, id) ensures id == first {
        assert Precedes(lines, id, first) && Precedes(lines, first, id);
      }
      RestoredTotal(lines, requestLines, quote);
      if NoneNegative(lines, requestLines) { TotalBounds(lines, requestLines, ids, first); }
    }
  }

  lemma RestoredTotal(lines: Lines, requestLines: map<Uuid, int>, quote: Uuid)
    requires OfQuote(lines, quote) != {}
    ensures OldTotal(Restored(lines, requestLines, quote))
            == StoredLineTotal(lines[FirstLine(lines, quote)], requestLines)
  {
    hide PriceTotal;
  }

  // ---------------------------------------------------------------------------
  // The tables
  // ---------------------------------------------------------------------------

  class Database {
    var titles: map<Uuid, string>        // purchase_request
    var quotes: map<Uuid, Uuid>          // purchase_quote, with the request of each
    var prices: map<Uuid, Price>         // the two legacy columns; empty once dropped
    var requestLines: map<Uuid, int>     // purchase_request_item, with its quantity
    var lines: Lines                     // purchase_quote_item

    constructor (titles: map<Uuid, string>, quotes: map<Uuid, Uuid>, prices: map<Uuid, Price>)
      ensures this.titles == titles && this.quotes == quotes && this.prices == prices
      ensures requestLines == map[] && lines == map[]
    {
      this.titles, this.quotes, this.prices := titles, quotes, prices;
      requestLines, lines := map[], map[];
    }

    // Every quote belongs to a request.
    ghost predicate Joined()
      reads this
    {
      forall q :: q in quotes ==> quotes[q] in titles
    }

    /** The fold. Every quote ends with exactly one line, of its old price and quantity, so
        its derived total is the old one and the way back would restore it. `gen_random_uuid()`
        is a parameter: a new id for each quote. */
    method Upgrade(generated: map<Uuid, Uuid>)
      requires Foldable(quotes, prices, generated)
      modifies this
      ensures titles == old(titles) && quotes == old(quotes) && prices == map[] && requestLines == map[]
      ensures lines == Folded(old(titles), old(quotes), old(prices), generated)
      ensures Joined() ==>
                forall q :: q in quotes ==> KeptAsOneLine(lines, q, old(prices)[q])
    {
      hide Folded, Foldable, KeptAsOneLine;
      requestLines := map[];
      lines := Folded(titles, quotes, prices, generated);
      if Joined() { FoldKeeps(titles, quotes, prices, generated); }
      prices := map[];
    }

    method Downgrade()
      modifies this
      ensures titles == old(titles) && quotes == old(quotes) && requestLines == map[] && lines == map[]
      ensures prices == map q | q in old(quotes) :: Restored(old(lines), old(requestLines), q)
    {
      hide FirstUnit, FirstQuantity;
      // The columns come back nullable and are filled from each quote's first line; the
      // rows still null get the defaults.
      var unit := map q | q in quotes :: FirstUnit(lines, q);
      var quantity := map q | q in quotes :: FirstQuantity(lines, requestLines, q);
      unit := map q | q in quotes :: Some(Coalesce(unit[q], 0));
      quantity := map q | q in quotes :: Some(Coalesce(quantity[q], 1));
      prices := map q | q in quotes :: Price(unit[q].value, quantity[q].value);
      lines, requestLines := map[], map[];
    }
  }

  /** Upgrading and then downgrading gives back every table the migration started from. */
  method UpgradeThenDowngrade(database: Database, generated: map<Uuid, Uuid>)
    requires Foldable(database.quotes, database.prices, generated) && database.Joined()
    modifies database
    ensures database.titles == old(database.titles) && database.quotes == old(database.quotes)
    ensures database.prices == old(database.prices)
    ensures database.requestLines == map[] && database.lines == map[]
  {
    hide Folded, Restored;
    ghost var prices := database.prices;
    RoundTrip(database.titles, database.quotes, prices, generated);
    database.Upgrade(generated);
    database.Downgrade();
  }
}
