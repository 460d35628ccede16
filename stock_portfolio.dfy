/** The stock portfolio tracker (app/routes/stock-portfolio.tsx): a table of
    holdings with editable numbers, a form that appends a holding, and the
    value, cost and gain of the whole portfolio as folds over the rows. */
module StockPortfolio {

  /** One holding. Amounts are exact reals. */
  datatype Stock = Stock(name: string, sharesOwned: real, costPerShare: real, marketPrice: real)

  /** What a row is worth at market price. */
  function RowValue(s: Stock): real
  {
    s.sharesOwned * s.marketPrice
  }

  /** What a row cost to buy. */
  function RowCost(s: Stock): real
  {
    s.sharesOwned * s.costPerShare
  }

  /** The row's "Unrealized Gain/Loss" column. */
  function UnrealizedGain(s: Stock): (g: real)
    ensures g == s.sharesOwned * (s.marketPrice - s.costPerShare)
  {
    RowValue(s) - s.sharesOwned * s.costPerShare
  }

  /** `p.reduce((sum, stock) => f(stock) + sum, 0)`: a left fold, so the last row
      is added to the total of the rows before it. */
  function Total(p: seq<Stock>, f: Stock -> real): real
  {
    if p == [] then 0.0 else f(p[|p| - 1]) + Total(p[..|p| - 1], f)
  }

  function MarketValue(p: seq<Stock>): real
  {
    Total(p, RowValue)
  }

  function Cost(p: seq<Stock>): real
  {
    Total(p, RowCost)
  }

  function Gain(p: seq<Stock>): real
  {
    MarketValue(p) - Cost(p)
  }

  /** A fold over two lists laid end to end is the sum of the two folds. */
  lemma {:induction false} TotalAppend(a: seq<Stock>, b: seq<Stock>, f: Stock -> real)
    ensures Total(a + b, f) == Total(a, f) + Total(b, f)
    decreases |b|
  {
    if b == [] {
      assert a + b == a;
    } else {
      var n := |b| - 1;
      assert (a + b)[..|a + b| - 1] == a + b[..n];
      assert (a + b)[|a + b| - 1] == b[n];
      TotalAppend(a, b[..n], f);
    }
  }

  /** Appending a row adds that row's figure to the fold. */
  lemma TotalSnoc(a: seq<Stock>, x: Stock, f: Stock -> real)
    ensures Total(a + [x], f) == Total(a, f) + f(x)
  {
    assert (a + [x])[..|a|] == a;
  }

  /** A row between two lists adds its figure to the folds of both. */
  lemma TotalMiddle(a: seq<Stock>, x: Stock, b: seq<Stock>, f: Stock -> real)
    ensures Total(a + [x] + b, f) == Total(a, f) + f(x) + Total(b, f)
  {
    TotalAppend(a + [x], b, f);
    TotalSnoc(a, x, f);
  }

  /** Taking row `i` out of a list lowers its fold by exactly that row's figure. */
  lemma TotalWithout(p: seq<Stock>, i: int, f: Stock -> real)
    requires 0 <= i < |p|
    ensures Total(p[..i] + p[i + 1..], f) == Total(p, f) - f(p[i])
  {
    SplitAt(p, i);
    TotalMiddle(p[..i], p[i], p[i + 1..], f);
    TotalAppend(p[..i], p[i + 1..], f);
  }

  lemma SplitAt(p: seq<Stock>, i: int)
    requires 0 <= i < |p|
    ensures p == p[..i] + [p[i]] + p[i + 1..]
  {
  }

  /** Replacing row `i` swaps that row's figure in the fold for the new one. */
  lemma TotalUpdate(p: seq<Stock>, i: int, s: Stock, f: Stock -> real)
    requires 0 <= i < |p|
    ensures Total(p[i := s], f) == Total(p, f) - f(p[i]) + f(s)
  {
    var a, b := p[..i], p[i + 1..];
    assert p[i := s] == a + [s] + b;
    assert p == a + [p[i]] + b;
    TotalMiddle(a, s, b, f);
    TotalMiddle(a, p[i], b, f);
  }

  /** The portfolio's gain is the sum of the rows' unrealized gains. */
  lemma {:induction false} GainIsSumOfRowGains(p: seq<Stock>)
    ensures Gain(p) == Total(p, UnrealizedGain)
    decreases |p|
  {
    if p != [] {
      GainIsSumOfRowGains(p[..|p| - 1]);
    }
  }

  /** When no row is at a loss, neither is the portfolio. */
  lemma {:induction false} NoRowLossNoPortfolioLoss(p: seq<Stock>)
    requires forall k :: 0 <= k < |p| ==> UnrealizedGain(p[k]) >= 0.0
    ensures Gain(p) >= 0.0
    decreases |p|
  {
    GainIsSumOfRowGains(p);
    if p != [] {
      var q := p[..|p| - 1];
      assert forall k :: 0 <= k < |q| ==> q[k] == p[k];
      NoRowLossNoPortfolioLoss(q);
      GainIsSumOfRowGains(q);
    }
  }

  /** The green "PROFIT" or red "LOSS" marking of a gain. */
  datatype Standing = Profit | Loss

  function Label(gain: real): (st: Standing)
    ensures st == Profit <==> gain >= 0.0
    ensures st == Loss <==> gain < 0.0
  {
    if gain >= 0.0 then Profit else Loss
  }

  /** The portfolio the page opens with. */
  const InitialPortfolio: seq<Stock> := [
    Stock("Snapple", 200.0, 10.0, 200.0),
    Stock("Testy", 10.0, 20.0, 2000.0),
    Stock("Cold Harbor", 1000.0, 10.0, 30.0)
  ]

  /** The summary the page opens with. */
  lemma InitialTotals()
    ensures MarketValue(InitialPortfolio) == 90000.0
    ensures Cost(InitialPortfolio) == 12200.0
    ensures Gain(InitialPortfolio) == 77800.0
    ensures Label(Gain(InitialPortfolio)) == Profit
  {
    var p := InitialPortfolio;
    TotalSnoc([], p[0], RowValue);
    TotalSnoc([], p[0], RowCost);
    assert [] + [p[0]] == [p[0]];
    AddStockTotals([p[0]], p[1]);
    assert [p[0]] + [p[1]] + [p[2]] == p;
    AddStockTotals([p[0]] + [p[1]], p[2]);
  }

  /** `arr.splice(start, 1)` on a copy: JavaScript clamps a negative start from the
      end and a start past the end to the length, then removes at most one element. */
  function SpliceOne(p: seq<Stock>, start: int): (r: seq<Stock>)
    ensures 0 <= start < |p| ==> r == p[..start] + p[start + 1..]
    ensures -|p| <= start < 0 ==> r == p[..|p| + start] + p[|p| + start + 1..]
    ensures start < -|p| && p != [] ==> r == p[1..]
    ensures start >= |p| || p == [] ==> r == p
  {
    var from := if start < 0 then (if |p| + start < 0 then 0 else |p| + start)
                else if start > |p| then |p| else start;
    if from < |p| then p[..from] + p[from + 1..] else p
  }

  /** Removal keeps the other rows in order: those before the index stay where they
      are, those after move up by one. */
  lemma SpliceOneKeepsOrder(p: seq<Stock>, i: int)
    requires 0 <= i < |p|
    ensures forall k :: 0 <= k < i ==> SpliceOne(p, i)[k] == p[k]
    ensures forall k :: i <= k < |p| - 1 ==> SpliceOne(p, i)[k] == p[k + 1]
  {
  }

  /** The numeric columns a row input or a form input can name. */
  datatype NumField = SharesOwned | CostPerShare | MarketPrice

  /** `{...s, [field]: v}` for a numeric field. */
  function WithField(s: Stock, field: NumField, v: real): (r: Stock)
    ensures r.name == s.name
    ensures r.sharesOwned == if field == SharesOwned then v else s.sharesOwned
    ensures r.costPerShare == if field == CostPerShare then v else s.costPerShare
    ensures r.marketPrice == if field == MarketPrice then v else s.marketPrice
  {
    match field
    case SharesOwned => s.(sharesOwned := v)
    case CostPerShare => s.(costPerShare := v)
    case MarketPrice => s.(marketPrice := v)
  }

  /** An edit of the add form: text for the name, a number for every other input. */
  datatype FormEdit = NameEdit(text: string) | NumberEdit(field: NumField, value: real)

  function Edited(form: Stock, e: FormEdit): (r: Stock)
    ensures e.NameEdit? ==> r == form.(name := e.text)
    ensures e.NumberEdit? ==> r == WithField(form, e.field, e.value)
  {
    match e
    case NameEdit(text) => form.(name := text)
    case NumberEdit(field, value) => WithField(form, field, value)
  }

  /** The form after a submit: no name and zero numbers. */
  const EmptyForm: Stock := Stock("", 0.0, 0.0, 0.0)

  /** The page's state: the rows and the add form. */
  class Tracker {
    var portfolio: seq<Stock>
    var form: Stock

    constructor ()
      ensures portfolio == InitialPortfolio && form == EmptyForm
    {
      portfolio, form := InitialPortfolio, EmptyForm;
    }

    /** The "remove" button of a row. */
    method RemoveStock(index: int)
      modifies this`portfolio
      ensures portfolio == SpliceOne(old(portfolio), index)
    {
      portfolio := SpliceOne(portfolio, index);
    }

    /** A numeric input of row `index` changed to the number `value`. */
    method HandleChange(index: int, field: NumField, value: real)
      requires 0 <= index < |portfolio|
      modifies this`portfolio
      ensures |portfolio| == |old(portfolio)|
      ensures portfolio[index] == WithField(old(portfolio)[index], field, value)
      ensures forall k :: 0 <= k < |portfolio| && k != index ==> portfolio[k] == old(portfolio)[k]
    {
      portfolio := portfolio[index := WithField(portfolio[index], field, value)];
    }

    /** An input of the add form changed. */
    method HandleFormChange(e: FormEdit)
      modifies this`form
      ensures form == Edited(old(form), e)
    {
      form := Edited(form, e);
    }

    /** The form was submitted: its holding becomes the last row and the form is
        cleared. The name input is required, so a submitted form has a name. */
    method AddStock()
      requires form.name != ""
      modifies this`portfolio, this`form
      ensures portfolio == old(portfolio) + [old(form)]
      ensures form == EmptyForm
    {
      portfolio := portfolio + [form];
      form := EmptyForm;
    }
  }

  /** Removing a row lowers the value and the cost by that row's figures. */
  lemma RemoveStockTotals(p: seq<Stock>, i: int)
    requires 0 <= i < |p|
    ensures MarketValue(SpliceOne(p, i)) == MarketValue(p) - RowValue(p[i])
    ensures Cost(SpliceOne(p, i)) == Cost(p) - RowCost(p[i])
    ensures Gain(SpliceOne(p, i)) == Gain(p) - UnrealizedGain(p[i])
  {
    TotalWithout(p, i, RowValue);
    TotalWithout(p, i, RowCost);
  }

  /** Adding a row raises the value and the cost by that row's figures. */
  lemma AddStockTotals(p: seq<Stock>, s: Stock)
    ensures MarketValue(p + [s]) == MarketValue(p) + RowValue(s)
    ensures Cost(p + [s]) == Cost(p) + RowCost(s)
    ensures Gain(p + [s]) == Gain(p) + UnrealizedGain(s)
  {
    assert (p + [s])[..|p|] == p;
  }

  /** Editing one number of a row changes the totals by that row's change alone. */
  lemma HandleChangeTotals(p: seq<Stock>, i: int, field: NumField, v: real)
    requires 0 <= i < |p|
    ensures MarketValue(p[i := WithField(p[i], field, v)])
            == MarketValue(p) - RowValue(p[i]) + RowValue(WithField(p[i], field, v))
    ensures Cost(p[i := WithField(p[i], field, v)])
            == Cost(p) - RowCost(p[i]) + RowCost(WithField(p[i], field, v))
  {
    TotalUpdate(p, i, WithField(p[i], field, v), RowValue);
    TotalUpdate(p, i, WithField(p[i], field, v), RowCost);
  }

  /** Adding a holding (from a form with a name) and removing the last row gives
      back the rows before. */
  method AddThenRemove(t: Tracker)
    requires t.form.name != ""
    modifies t
    ensures t.portfolio == old(t.portfolio)
    ensures t.form == EmptyForm
  {
    t.AddStock();
    t.RemoveStock(|t.portfolio| - 1);
  }
}
