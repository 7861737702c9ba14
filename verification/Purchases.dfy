/** Quotes and their priced lines (`schemas/purchase.py`). */
module Purchases {
  import opened Money
  import opened Options
  import opened Text
  import opened Uuids

  const MAX_QUOTE_ITEMS: nat := 50
  const MAX_DESCRIPTION: nat := 255
  const MAX_MODEL: nat := 120

  datatype ItemIn = ItemIn(requestItem: Option<Uuid>, model: Option<string>, unitPrice: real,
                           description: Option<string>, quantity: Option<int>)

  // One enumerated line of a request.
  datatype RequestLine = RequestLine(id: Uuid, description: string, quantity: int)

  // ---------------------------------------------------------------------------
  // One line on the way in
  // ---------------------------------------------------------------------------

  // The field constraints, checked before anything is stripped.
  predicate FieldsAllowed(item: ItemIn) {
    && item.unitPrice >= 0.0
    && (item.model.Some? ==> |item.model.value| <= MAX_MODEL)
    && (item.description.Some? ==> |item.description.value| <= MAX_DESCRIPTION)
    && (item.quantity.Some? ==> item.quantity.value > 0)
  }

  function Stripped(item: ItemIn): ItemIn {
    var model := if item.model.Some? && Strip(item.model.value) != [] then Some(Strip(item.model.value)) else None;
    var description := if item.description.Some? then Some(Strip(item.description.value)) else None;
    item.(model := model, description := description)
  }

  // `PurchaseQuoteItemIn`: the normalised line, or None for the refusal.
  function CheckItem(item: ItemIn): Option<ItemIn> {
    if !FieldsAllowed(item) then None
    else
      var s := Stripped(item);
      if s.requestItem.Some? then
        if s.description.Some? || s.quantity.Some? then None else Some(s)
      else if s.description.None? || s.description.value == [] || s.quantity.None? then None
      else Some(s)
  }

  /** An accepted line either answers a request line and carries nothing of its own, or is
      an extra line with a non-empty description and a positive quantity; never both. */
  lemma AcceptedLines(item: ItemIn)
    requires CheckItem(item).Some?
    ensures var r := CheckItem(item).value;
            && r.unitPrice == item.unitPrice >= 0.0 && r.requestItem == item.requestItem
            && (r.requestItem.Some? <==> r.description.None? && r.quantity.None?)
            && (r.requestItem.None? ==>
                 && r.description.Some? && 0 < |r.description.value| <= MAX_DESCRIPTION
                 && r.quantity.Some? && r.quantity.value > 0)
            && (r.model.Some? ==> r.model.value != [])
  {
    if item.description.Some? { StripShrinks(item.description.value); }
  }

  lemma StripShrinks(s: string)
    ensures |Strip(s)| <= |s|
  {
    SkipShrinks(s);
    DropShrinks(SkipSpaces(s));
  }

  lemma {:induction false} SkipShrinks(s: string)
    ensures |SkipSpaces(s)| <= |s|
  {
    if s != [] && IsSpace(s[0]) { SkipShrinks(s[1..]); }
  }

  lemma {:induction false} DropShrinks(s: string)
    ensures |DropTrailingSpaces(s)| <= |s|
  {
    if s != [] && IsSpace(s[|s| - 1]) { DropShrinks(s[..|s| - 1]); }
  }

  // ---------------------------------------------------------------------------
  // The list rules and coverage
  // ---------------------------------------------------------------------------

  // No request line is priced twice.
  ghost predicate LinksDistinct(links: seq<Option<Uuid>>) {
    forall i, j :: 0 <= i < j < |links| && links[i].Some? ==> links[i] != links[j]
  }

  function Links(items: seq<ItemIn>): seq<Option<Uuid>> {
    seq(|items|, i requires 0 <= i < |items| => items[i].requestItem)
  }

  /** `_validate_quote_items` accepts a list iff it is short enough and prices each request
      line at most once. */
  method ValidateQuoteItems(items: seq<ItemIn>) returns (accepted: bool)
    ensures accepted <==> |items| <= MAX_QUOTE_ITEMS && LinksDistinct(Links(items))
  {
    if |items| > MAX_QUOTE_ITEMS { return false; }
    var seen: set<Uuid> := {};
    ghost var links := Links(items);
    for i := 0 to |items|
      invariant LinksDistinct(links[..i])
      invariant forall id :: id in seen <==> exists j :: 0 <= j < i && links[j] == Some(id)
    {
      var link := items[i].requestItem;
      assert links[i] == link;
      if link.None? { continue; }
      if link.value in seen { return false; }
      seen := seen + {link.value};
    }
    assert links[..|items|] == links;
    return true;
  }

  // `quoted_item_count`: linked lines only.
  function QuotedItemCount(links: seq<Option<Uuid>>): nat {
    if links == [] then 0
    else QuotedItemCount(links[..|links| - 1]) + if links[|links| - 1].Some? then 1 else 0
  }

  function LinkedIds(links: seq<Option<Uuid>>): set<Uuid> {
    set i | 0 <= i < |links| && links[i].Some? :: links[i].value
  }

  lemma {:induction false} CountIsCardinality(links: seq<Option<Uuid>>)
    requires LinksDistinct(links)
    ensures QuotedItemCount(links) == |LinkedIds(links)|
  {
    if links != [] {
      var front, last := links[..|links| - 1], links[|links| - 1];
      CountIsCardinality(front);
      assert forall i :: 0 <= i < |front| ==> front[i] == links[i];
      if last.Some? {
        assert last.value !in LinkedIds(front);
        assert LinkedIds(links) == LinkedIds(front) + {last.value};
      } else {
        assert LinkedIds(links) == LinkedIds(front);
      }
    }
  }

  lemma {:induction false} SubsetSize(part: set<Uuid>, whole: set<Uuid>)
    requires part <= whole
    ensures |part| <= |whole| && (|part| == |whole| ==> part == whole)
  {
    if part != {} {
      var x :| x in part;
      SubsetSize(part - {x}, whole - {x});
      assert part == (part - {x}) + {x} && whole == (whole - {x}) + {x};
    } else if whole != {} {
      var x :| x in whole;
      assert |whole| == |whole - {x}| + 1;
    }
  }

  // Request line `id` is priced by exactly one line of the quote.
  ghost predicate PricedOnce(links: seq<Option<Uuid>>, id: Uuid) {
    exists i :: 0 <= i < |links| && links[i] == Some(id)
                && forall j :: 0 <= j < |links| && links[j] == Some(id) ==> j == i
  }

  /** Coverage by counting: for a quote accepted by the list rules whose links belong to its
      request, the count equals the number of request lines iff every one of them is priced
      exactly once, however many extra lines the quote carries. */
  lemma CompleteByCounting(links: seq<Option<Uuid>>, request: set<Uuid>)
    requires LinksDistinct(links) && LinkedIds(links) <= request
    ensures QuotedItemCount(links) <= |request|
    ensures QuotedItemCount(links) == |request| <==> forall id :: id in request ==> PricedOnce(links, id)
  {
    CountIsCardinality(links);
    SubsetSize(LinkedIds(links), request);
    if forall id :: id in request ==> PricedOnce(links, id) {
      assert forall id :: id in request ==> id in LinkedIds(links);
      assert LinkedIds(links) == request;
    }
    if LinkedIds(links) == request {
      forall id | id in request ensures PricedOnce(links, id) {
        var i :| 0 <= i < |links| && links[i].Some? && links[i].value == id;
        assert links[i] == Some(id);
      }
    }
  }

  // ---------------------------------------------------------------------------
  // Totals
  // ---------------------------------------------------------------------------

  // A priced line on the way out: the unit price is at scale, the quantity is the request
  // line's or the line's own.
  datatype Line = Line(requestItem: Option<Uuid>, unitPrice: Cents, quantity: int)

  function LineTotal(line: Line): Cents {
    PriceTotal(line.unitPrice, line.quantity)
  }

  function SumLines(lines: seq<Line>): Cents {
    if lines == [] then 0 else SumLines(lines[..|lines| - 1]) + LineTotal(lines[|lines| - 1])
  }

  // The exact sum of price times quantity.
  function ExactTotal(lines: seq<Line>): Cents {
    if lines == [] then 0
    else ExactTotal(lines[..|lines| - 1]) + lines[|lines| - 1].unitPrice * lines[|lines| - 1].quantity
  }

  class QuoteRead {
    const items: seq<Line>
    var quotedItemCount: nat
    var totalPrice: Cents

    constructor (items: seq<Line>)
      ensures this.items == items && quotedItemCount == 0 && totalPrice == 0
    {
      this.items, quotedItemCount, totalPrice := items, 0, 0;
    }

    /** `_compute_total`: the quote total is the exact sum of price times quantity; the
        second quantize rounds nothing. */
    method ComputeTotal()
      modifies this
      ensures quotedItemCount == QuotedItemCount(LineLinks(items))
      ensures totalPrice == ExactTotal(items)
    {
      quotedItemCount := QuotedItemCount(LineLinks(items));
      totalPrice := QuantizeMoney(Amount(SumLines(items)));
      SumIsExact(items);
      QuantizeExact(SumLines(items));
    }
  }

  function LineLinks(lines: seq<Line>): seq<Option<Uuid>> {
    seq(|lines|, i requires 0 <= i < |lines| => lines[i].requestItem)
  }

  lemma {:induction false} SumIsExact(lines: seq<Line>)
    ensures SumLines(lines) == ExactTotal(lines)
  {
    if lines != [] {
      SumIsExact(lines[..|lines| - 1]);
      PriceTotalIsExact(lines[|lines| - 1].unitPrice, lines[|lines| - 1].quantity);
    }
  }

  lemma {:induction false} TotalOfConcat(x: seq<Line>, y: seq<Line>)
    ensures ExactTotal(x + y) == ExactTotal(x) + ExactTotal(y)
  {
    if y == [] {
      assert x + y == x;
    } else {
      assert (x + y)[..|x + y| - 1] == x + y[..|y| - 1];
      TotalOfConcat(x, y[..|y| - 1]);
    }
  }

  function Without(lines: seq<Line>, i: nat): seq<Line>
    requires i < |lines|
  {
    lines[..i] + lines[i + 1..]
  }

  lemma WithoutOne(lines: seq<Line>, i: nat)
    requires i < |lines|
    ensures ExactTotal(lines) == ExactTotal(Without(lines, i)) + ExactTotal([lines[i]])
    ensures multiset(Without(lines, i)) == multiset(lines) - multiset{lines[i]}
  {
    hide ExactTotal;
    var front, back := lines[..i], lines[i + 1..];
    var tail := [lines[i]] + back;
    assert lines == front + tail;
    TotalOfConcat(front, tail);
    TotalOfConcat([lines[i]], back);
    TotalOfConcat(front, back);
    assert multiset(lines) == multiset(front) + multiset(tail);
  }

  /** The total does not depend on the order of the lines. */
  lemma {:induction false} TotalIgnoresOrder(x: seq<Line>, y: seq<Line>)
    requires multiset(x) == multiset(y)
    ensures ExactTotal(x) == ExactTotal(y)
    decreases |x|
  {
    if x == [] {
      assert |multiset(y)| == 0;
    } else {
      assert x[0] in multiset(y);
      var i :| 0 <= i < |y| && y[i] == x[0];
      WithoutOne(x, 0);
      WithoutOne(y, i);
      hide ExactTotal;
      TotalIgnoresOrder(Without(x, 0), Without(y, i));
    }
  }
}
