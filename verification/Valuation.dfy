/** Folding a price and an exchange rate into a holding row, in place: `_apply_valuation` in
    api/services/analytics.py. */
module Valuation {
  import opened Wrappers
  import opened Arithmetic
  import opened FifoLedger
  import opened Holdings

  datatype Close = Close(close: real, day: int)

  type Prices = map<Ticker, Close>
  type Rates = map<string, real>

  /** The valuation fields of a row, base currency fields without suffix, native ones `Local`. */
  datatype Fields = Fields(
    fxRate: Option<real>, costBasisBase: Option<real>,
    lastPrice: Option<real>, lastPriceDay: Option<int>, fromClose: bool,
    valueLocal: Option<real>, value: Option<real>, gain: Option<real>, gainPct: Option<real>)

  const UNVALUED := Fields(None, None, None, None, false, None, None, None, None)

  // ---------- What the fields should be ----------

  predicate Coherent(value: real, broker: real)
    requires broker != 0.0
  {
    0.5 <= Quotient(value, broker) <= 2.0
  }

  /** The cross-check divides by the broker's total, and the total is zero. */
  predicate DividesByZero(h: Holding, price: real) {
    h.brokerValue == Some(0.0) && Product(price, h.quantity) > 0.0 && h.quantity > 0.0
  }

  function QuotedPrice(h: Holding, prices: Prices): Option<real> {
    if h.ticker in prices then Some(prices[h.ticker].close) else h.brokerPrice
  }

  /** The price a row is valued at: quoted, or else the one it already carries. */
  function PriceOf(f: Fields, h: Holding, prices: Prices): Option<real> {
    if QuotedPrice(h, prices).Some? then QuotedPrice(h, prices) else f.lastPrice
  }

  /** Valuing the row does not divide by zero. */
  predicate Valuable(f: Fields, h: Holding, prices: Prices) {
    PriceOf(f, h, prices).Some? ==> !DividesByZero(h, PriceOf(f, h, prices).value)
  }

  /** The computed value is out of scale with the broker's total, which then replaces it. */
  predicate Overridden(h: Holding, price: real)
    requires !DividesByZero(h, price)
  {
    var computed := Product(price, h.quantity);
    h.brokerValue.Some? && computed > 0.0 && h.quantity > 0.0 && !Coherent(computed, h.brokerValue.value)
  }

  function LocalValue(h: Holding, price: real): real
    requires !DividesByZero(h, price)
  {
    if Overridden(h, price) then h.brokerValue.value else Product(price, h.quantity)
  }

  function Scaled(x: real, rate: Option<real>): Option<real> {
    if rate.Some? then Some(Product(x, rate.value)) else None
  }

  /** The fields once rate, cost basis and price are folded in; what has no input is kept. */
  function Priced(f: Fields, h: Holding, prices: Prices, rates: Rates): Fields {
    var rate := if h.currency in rates then Some(rates[h.currency]) else None;
    var day :=
      if h.ticker in prices then Some(prices[h.ticker].day)
      else if h.brokerPrice.Some? then h.brokerAsOf else f.lastPriceDay;
    f.(fxRate := rate,
       costBasisBase := if rate.Some? then Scaled(h.costBasis, rate) else f.costBasisBase,
       lastPrice := PriceOf(f, h, prices), lastPriceDay := day,
       fromClose := h.ticker in prices || f.fromClose)
  }

  /** The fields once the cross-check has settled price and value. */
  function Checked(f: Fields, h: Holding): Fields
    requires f.lastPrice.Some? && !DividesByZero(h, f.lastPrice.value)
  {
    var price := f.lastPrice.value;
    var local := LocalValue(h, price);
    if Overridden(h, price) then
      f.(lastPrice := Some(Quotient(local, h.quantity)), lastPriceDay := h.brokerAsOf, fromClose := false,
         valueLocal := Some(local))
    else f.(valueLocal := Some(local))
  }

  /** The native return, and the base figures where a rate is known. */
  function Totalled(f: Fields, h: Holding): Fields
    requires f.valueLocal.Some? && (f.fxRate.Some? ==> f.costBasisBase.Some?)
  {
    var pct :=
      if h.costBasis != 0.0 then Some(Quotient(f.valueLocal.value - h.costBasis, h.costBasis)) else None;
    var value := if f.fxRate.Some? then Scaled(f.valueLocal.value, f.fxRate) else f.value;
    var gain := if f.fxRate.Some? then Some(value.value - f.costBasisBase.value) else f.gain;
    f.(gainPct := pct, value := value, gain := gain)
  }

  /** A row's fields after valuation, from what they were. */
  function Revalued(f: Fields, h: Holding, prices: Prices, rates: Rates): Fields
    requires Valuable(f, h, prices)
  {
    var priced := Priced(f, h, prices, rates);
    if priced.lastPrice.None? then priced else Totalled(Checked(priced, h), h)
  }

  /** The fields of a fresh row after valuation. */
  function Valued(h: Holding, prices: Prices, rates: Rates): Fields
    requires Valuable(UNVALUED, h, prices)
  {
    Revalued(UNVALUED, h, prices, rates)
  }

  /** What a division by zero leaves behind: price and computed value are already written. */
  function Interrupted(f: Fields, h: Holding, prices: Prices, rates: Rates): Fields
    requires !Valuable(f, h, prices)
  {
    var priced := Priced(f, h, prices, rates);
    priced.(valueLocal := Some(Product(priced.lastPrice.value, h.quantity)))
  }

  /** A figure whose input is missing stays as it was: base figures without a rate, native ones without
      a price, and the price's date without a close or a broker's price. */
  lemma MissingInputsKeepFields(f: Fields, h: Holding, prices: Prices, rates: Rates)
    requires Valuable(f, h, prices)
    ensures var g := Revalued(f, h, prices, rates);
      && (h.currency !in rates ==>
            g.fxRate == None && g.value == f.value && g.gain == f.gain && g.costBasisBase == f.costBasisBase)
      && (h.currency in rates ==> g.costBasisBase == Some(Product(h.costBasis, rates[h.currency])))
      && (h.ticker !in prices && h.brokerPrice.None? && f.lastPrice.None? ==>
            g.lastPrice == None && g.lastPriceDay == f.lastPriceDay && g.fromClose == f.fromClose
            && g.valueLocal == f.valueLocal && g.value == f.value && g.gain == f.gain && g.gainPct == f.gainPct)
      && (h.ticker !in prices && h.brokerPrice.None? && g.valueLocal != h.brokerValue ==>
            g.lastPriceDay == f.lastPriceDay && g.fromClose == f.fromClose && g.lastPrice == f.lastPrice)
  {
  }

  /** A valuation fails exactly when positive shares at a positive price meet a broker's total of zero.
      Rate, base cost, price and computed value are then in place, and value and gains are as before. */
  lemma InterruptedExactly(f: Fields, h: Holding, prices: Prices, rates: Rates)
    ensures Valuable(f, h, prices)
       <==> h.brokerValue != Some(0.0) || h.quantity <= 0.0 || PriceOf(f, h, prices).None?
            || Product(PriceOf(f, h, prices).value, h.quantity) <= 0.0
    ensures !Valuable(f, h, prices) ==>
      var g := Interrupted(f, h, prices, rates);
      && g.lastPrice == PriceOf(f, h, prices) && g.valueLocal == Some(Product(g.lastPrice.value, h.quantity))
      && g.value == f.value && g.gain == f.gain && g.gainPct == f.gainPct
      && (h.currency in rates ==> g.costBasisBase == Some(Product(h.costBasis, rates[h.currency])))
  {
  }

  // ---------- The row object ----------

  class Row {
    var native: Holding
    var fxRate: Option<real>
    var costBasisBase: Option<real>
    var lastPrice: Option<real>
    var lastPriceDay: Option<int>
    var fromClose: bool
    var valueLocal: Option<real>
    var value: Option<real>
    var gain: Option<real>
    var gainPct: Option<real>
    var securityType: string
    var userLabel: Option<string>
    var accountLabel: Option<string>

    constructor (h: Holding)
      ensures native == h && State() == UNVALUED
      ensures securityType == "other" && userLabel == None && accountLabel == None
    {
      native := h;
      fxRate, costBasisBase, lastPrice, lastPriceDay, fromClose := None, None, None, None, false;
      valueLocal, value, gain, gainPct := None, None, None, None;
      securityType, userLabel, accountLabel := "other", None, None;
    }

    ghost function State(): Fields
      reads this
    {
      Fields(fxRate, costBasisBase, lastPrice, lastPriceDay, fromClose, valueLocal, value, gain, gainPct)
    }

    /** Rate, cost basis in base currency, and the cached close or else the broker's own price. */
    method SetPrice(prices: Prices, rates: Rates)
      modifies `fxRate, `costBasisBase, `lastPrice, `lastPriceDay, `fromClose
      ensures State() == Priced(old(State()), native, prices, rates)
    {
      fxRate := if native.currency in rates then Some(rates[native.currency]) else None;
      if fxRate.Some? {
        costBasisBase := Some(Product(native.costBasis, fxRate.value));
      }
      if native.ticker in prices {
        lastPrice, lastPriceDay, fromClose := Some(prices[native.ticker].close), Some(prices[native.ticker].day), true;
      } else if native.brokerPrice.Some? {
        lastPrice, lastPriceDay := native.brokerPrice, native.brokerAsOf;
      }
    }

    /** Price times quantity, unless the broker's total says the price is out of scale. */
    method SetLocalValue() returns (raised: bool)
      requires lastPrice.Some?
      modifies `lastPrice, `lastPriceDay, `fromClose, `valueLocal
      ensures raised <==> old(DividesByZero(native, lastPrice.value))
      ensures raised ==>
        State() == old(State()).(valueLocal := Some(Product(old(lastPrice.value), native.quantity)))
      ensures !raised ==> State() == Checked(old(State()), native)
    {
      var local := Product(lastPrice.value, native.quantity);
      valueLocal := Some(local);
      if native.brokerValue.Some? && local > 0.0 && native.quantity > 0.0 {
        if native.brokerValue.value == 0.0 {
          return true;
        }
        var ratio := Quotient(local, native.brokerValue.value);
        if !(0.5 <= ratio <= 2.0) {
          lastPrice := Some(Quotient(native.brokerValue.value, native.quantity));
          lastPriceDay, fromClose := native.brokerAsOf, false;
          valueLocal := native.brokerValue;
        }
      }
      raised := false;
    }

    method SetTotals()
      requires valueLocal.Some? && (fxRate.Some? ==> costBasisBase.Some?)
      modifies `gainPct, `value, `gain
      ensures State() == Totalled(old(State()), native)
    {
      gainPct :=
        if native.costBasis != 0.0 then Some(Quotient(valueLocal.value - native.costBasis, native.costBasis)) else None;
      if fxRate.Some? {
        value := Some(Product(valueLocal.value, fxRate.value));
        if costBasisBase.Some? {
          gain := Some(value.value - costBasisBase.value);
        }
      }
    }

    /** Fails exactly when a zero broker total meets a positive value, having then written the
        price and the computed value; otherwise all fields are as specified. */
    method ApplyValuation(prices: Prices, rates: Rates) returns (raised: bool)
      modifies this
      ensures raised <==> !Valuable(old(State()), native, prices)
      ensures native == old(native)
      ensures !raised ==> State() == Revalued(old(State()), native, prices, rates)
      ensures !raised ==>
        var f := Revalued(old(State()), native, prices, rates);
        && fxRate == f.fxRate && costBasisBase == f.costBasisBase && lastPrice == f.lastPrice
        && lastPriceDay == f.lastPriceDay && fromClose == f.fromClose && valueLocal == f.valueLocal
        && value == f.value && gain == f.gain && gainPct == f.gainPct
      ensures raised ==> State() == Interrupted(old(State()), native, prices, rates)
      ensures securityType == old(securityType) && userLabel == old(userLabel) && accountLabel == old(accountLabel)
    {
      SetPrice(prices, rates);
      if lastPrice.None? { return false; }
      raised := SetLocalValue();
      if raised { return; }
      SetTotals();
    }
  }

  // ---------- What a valuation guarantees ----------

  lemma OwnScale(x: real)
    requires x != 0.0
    ensures Coherent(x, x)
  {
    OverItself(x);
  }

  /** The stored value always stands in scale with the broker's total, and is price times quantity. */
  lemma ValuedInScale(h: Holding, prices: Prices, rates: Rates)
    requires Valuable(UNVALUED, h, prices) && QuotedPrice(h, prices).Some?
    ensures var f := Valued(h, prices, rates);
      && f.valueLocal.Some? && f.lastPrice.Some? && Product(f.lastPrice.value, h.quantity) == f.valueLocal.value
      && (h.brokerValue.Some? && h.quantity > 0.0 && Product(QuotedPrice(h, prices).value, h.quantity) > 0.0 ==>
            h.brokerValue.value != 0.0 && Coherent(f.valueLocal.value, h.brokerValue.value))
  {
    if Overridden(h, QuotedPrice(h, prices).value) {
      OwnScale(h.brokerValue.value);
      QuotientTimes(h.brokerValue.value, h.quantity);
    }
  }

  lemma RatioSurvives(local: real, cost: real, rate: real)
    requires cost != 0.0 && rate != 0.0
    ensures Product(cost, rate) != 0.0
    ensures Quotient(Product(local, rate) - Product(cost, rate), Product(cost, rate)) == Quotient(local - cost, cost)
  {
    var q := Quotient(local - cost, cost);
    NonzeroProduct(cost, rate);
    QuotientTimes(local - cost, cost);
    Distribute(rate, local - cost, cost);
    ProductAssociates(q, cost, rate);
    QuotientIs(Product(local, rate) - Product(cost, rate), Product(cost, rate), q);
  }

  /** Base figures exist exactly when a rate (and a price) does, and the percentage gain is the
      same in base currency as in native. */
  lemma NothingIsFabricated(h: Holding, prices: Prices, rates: Rates)
    requires Valuable(UNVALUED, h, prices)
    ensures var f := Valued(h, prices, rates);
      && (f.value.Some? <==> h.currency in rates && QuotedPrice(h, prices).Some?)
      && (f.gain.Some? <==> f.value.Some?)
      && (f.costBasisBase.Some? <==> h.currency in rates)
      && (f.gain.Some? && h.costBasis != 0.0 && rates[h.currency] != 0.0 ==>
            f.costBasisBase.value != 0.0 && f.gainPct == Some(Quotient(f.gain.value, f.costBasisBase.value)))
  {
    var f := Valued(h, prices, rates);
    if f.gain.Some? && h.costBasis != 0.0 && rates[h.currency] != 0.0 {
      RatioSurvives(f.valueLocal.value, h.costBasis, rates[h.currency]);
    }
  }

  /** The broker's total stands in for a computed value out of its scale: below half of it or above
      twice. */
  predicate OutOfScale(h: Holding, price: real) {
    && h.brokerValue.Some? && h.quantity > 0.0 && Product(price, h.quantity) > 0.0
    && !(0.5 * h.brokerValue.value <= Product(price, h.quantity) <= 2.0 * h.brokerValue.value)
  }

  /** Where a fresh row's price comes from: the cached close on its day; or the broker's own, on the
      snapshot's day, when there is no close or the close is out of scale; or nowhere. */
  lemma PriceSource(h: Holding, prices: Prices, rates: Rates)
    requires Valuable(UNVALUED, h, prices) && (h.brokerValue.Some? ==> h.brokerValue.value > 0.0)
    ensures var f := Valued(h, prices, rates);
      var quoted := if h.ticker in prices then Some(prices[h.ticker].close) else h.brokerPrice;
      && (quoted.None? ==> f.lastPrice.None? && f.lastPriceDay.None? && !f.fromClose && f.valueLocal.None?)
      && (quoted.Some? && OutOfScale(h, quoted.value) ==>
            && f.valueLocal == h.brokerValue && f.lastPriceDay == h.brokerAsOf && !f.fromClose
            && f.lastPrice.Some? && Product(f.lastPrice.value, h.quantity) == h.brokerValue.value)
      && (quoted.Some? && !OutOfScale(h, quoted.value) ==>
            && f.lastPrice == quoted && f.valueLocal == Some(Product(quoted.value, h.quantity))
            && (f.fromClose <==> h.ticker in prices)
            && f.lastPriceDay == if h.ticker in prices then Some(prices[h.ticker].day) else h.brokerAsOf)
  {
    var quoted := QuotedPrice(h, prices);
    if quoted.Some? && h.brokerValue.Some? {
      QuotientBetween(Product(quoted.value, h.quantity), h.brokerValue.value, 0.5, 2.0);
      if h.quantity > 0.0 {
        QuotientTimes(h.brokerValue.value, h.quantity);
      }
    }
  }

  /** Base figures are the native ones at the row's rate, the gain is value less cost, and the
      percentage is the native gain over the native cost. */
  lemma BaseFigures(h: Holding, prices: Prices, rates: Rates)
    requires Valuable(UNVALUED, h, prices)
    ensures var f := Valued(h, prices, rates);
      && (f.fxRate == if h.currency in rates then Some(rates[h.currency]) else None)
      && (f.fxRate.Some? ==> f.costBasisBase == Some(Product(h.costBasis, f.fxRate.value)))
      && (f.fxRate.Some? && f.valueLocal.Some? ==>
            && f.value == Some(Product(f.valueLocal.value, f.fxRate.value))
            && f.gain == Some(f.value.value - f.costBasisBase.value))
      && (f.gainPct.Some? <==> f.valueLocal.Some? && h.costBasis != 0.0)
      && (f.gainPct.Some? ==> Product(f.gainPct.value, h.costBasis) == f.valueLocal.value - h.costBasis)
  {
    var f := Valued(h, prices, rates);
    if f.valueLocal.Some? && h.costBasis != 0.0 {
      QuotientTimes(f.valueLocal.value - h.costBasis, h.costBasis);
    }
  }

  lemma OwnPriceStays(h: Holding, price: real)
    requires !DividesByZero(h, price) && Overridden(h, price)
    ensures var again := Quotient(LocalValue(h, price), h.quantity);
      !DividesByZero(h, again) && !Overridden(h, again) && LocalValue(h, again) == LocalValue(h, price)
  {
    QuotientTimes(h.brokerValue.value, h.quantity);
    OwnScale(h.brokerValue.value);
  }

  /** Valuing again from the same prices and rates never fails and changes nothing. */
  lemma RevaluingIsIdempotent(f: Fields, h: Holding, prices: Prices, rates: Rates)
    requires Valuable(f, h, prices)
    ensures Valuable(Revalued(f, h, prices, rates), h, prices)
    ensures Revalued(Revalued(f, h, prices, rates), h, prices, rates) == Revalued(f, h, prices, rates)
  {
    if QuotedPrice(h, prices).None? && f.lastPrice.Some? && Overridden(h, f.lastPrice.value) {
      OwnPriceStays(h, f.lastPrice.value);
    }
  }

  // ---------- Consolidated against per-account valuation ----------

  /** One ticker's holdings in two accounts, consolidated: quantities and broker totals add up,
      an account without a broker total adds none, and the broker's price is total over quantity. */
  function Consolidated(a: Holding, b: Holding): Holding {
    var total := if a.brokerValue.None? then b.brokerValue
                 else if b.brokerValue.None? then a.brokerValue
                 else Some(a.brokerValue.value + b.brokerValue.value);
    var joint := a.(quantity := a.quantity + b.quantity, costBasis := a.costBasis + b.costBasis, brokerValue := total);
    joint.(brokerPrice := TotalPerShare(joint))
  }

  /** The broker's price as the readers derive it. */
  function TotalPerShare(h: Holding): Option<real> {
    if h.brokerValue.Some? && h.quantity != 0.0 then Some(Quotient(h.brokerValue.value, h.quantity)) else None
  }

  /** Which account comes first makes no difference to the joint figures. */
  lemma ConsolidationIsSymmetric(a: Holding, b: Holding)
    ensures var x, y := Consolidated(a, b), Consolidated(b, a);
      && x.quantity == y.quantity && x.costBasis == y.costBasis
      && x.brokerValue == y.brokerValue && x.brokerPrice == y.brokerPrice
  {
  }

  /** What the cross-check makes of a positive computed value and a positive broker total. */
  function Chosen(computed: real, total: real): real
    requires total > 0.0
  {
    if Coherent(computed, total) then computed else total
  }

  predicate InScale(computed: real, total: real)
    requires total > 0.0
  {
    0.5 * total <= computed <= 2.0 * total
  }

  lemma ChosenByScale(computed: real, total: real)
    requires total > 0.0
    ensures Coherent(computed, total) <==> InScale(computed, total)
    ensures Chosen(computed, total) == if InScale(computed, total) then computed else total
  {
    QuotientBetween(computed, total, 0.5, 2.0);
  }

  /** A row of the readers with quantity and broker total positive, and a positive close if any. */
  predicate Sound(h: Holding, prices: Prices) {
    && h.quantity > 0.0 && (h.brokerValue.Some? ==> h.brokerValue.value > 0.0) && h.brokerPrice == TotalPerShare(h)
    && (h.ticker in prices ==> prices[h.ticker].close > 0.0)
  }

  lemma SoundValue(h: Holding, price: real)
    requires h.quantity > 0.0 && price > 0.0 && (h.brokerValue.Some? ==> h.brokerValue.value > 0.0)
    ensures Product(price, h.quantity) > 0.0 && !DividesByZero(h, price)
    ensures LocalValue(h, price) == if h.brokerValue.None? then Product(price, h.quantity)
                                    else Chosen(Product(price, h.quantity), h.brokerValue.value)
  {
    PositiveProduct(price, h.quantity);
  }

  /** With a cached close a fresh row is worth the checked product of close and quantity. */
  lemma WorthAtClose(h: Holding, prices: Prices, rates: Rates)
    requires Sound(h, prices) && h.ticker in prices
    ensures var price := prices[h.ticker].close;
      && Valuable(UNVALUED, h, prices) && Product(price, h.quantity) > 0.0
      && Valued(h, prices, rates).valueLocal
         == Some(if h.brokerValue.None? then Product(price, h.quantity)
                 else Chosen(Product(price, h.quantity), h.brokerValue.value))
  {
    SoundValue(h, prices[h.ticker].close);
  }

  /** Without one it is worth what its broker reports, at the broker's price, or nothing known. */
  lemma WorthWithoutClose(h: Holding, prices: Prices, rates: Rates)
    requires Sound(h, prices) && h.ticker !in prices
    ensures Valuable(UNVALUED, h, prices)
    ensures var f := Valued(h, prices, rates); f.valueLocal == h.brokerValue && f.lastPrice == h.brokerPrice
  {
    if h.brokerValue.Some? {
      QuotientTimes(h.brokerValue.value, h.quantity);
      OwnScale(h.brokerValue.value);
    }
  }

  lemma ConsolidatedIsSound(a: Holding, b: Holding, prices: Prices)
    requires Sound(a, prices) && Sound(b, prices)
    ensures Sound(Consolidated(a, b), prices)
  {
  }

  /** Both accounts have a value, and it adds up to the consolidated row's. */
  ghost predicate AddUp(a: Holding, b: Holding, joint: Holding, prices: Prices, rates: Rates) {
    && Valuable(UNVALUED, a, prices) && Valuable(UNVALUED, b, prices) && Valuable(UNVALUED, joint, prices)
    && var x, y := Valued(a, prices, rates).valueLocal, Valued(b, prices, rates).valueLocal;
       x.Some? && y.Some? && Valued(joint, prices, rates).valueLocal == Some(x.value + y.value)
  }

  /** When two positive values with their own totals come to the same together as apart. */
  predicate SameTogether(x: real, xTotal: real, y: real, yTotal: real)
    requires xTotal > 0.0 && yTotal > 0.0
  {
    if InScale(x, xTotal) then
      InScale(y, yTotal) || (x == xTotal && !InScale(x + y, xTotal + yTotal))
    else if InScale(y, yTotal) then y == yTotal && !InScale(x + y, xTotal + yTotal)
    else x + y == xTotal + yTotal || !InScale(x + y, xTotal + yTotal)
  }

  lemma ChosenTogether(x: real, xTotal: real, y: real, yTotal: real)
    requires x > 0.0 && y > 0.0 && xTotal > 0.0 && yTotal > 0.0
    ensures Chosen(x + y, xTotal + yTotal) == Chosen(x, xTotal) + Chosen(y, yTotal)
       <==> SameTogether(x, xTotal, y, yTotal)
  {
    ChosenByScale(x, xTotal);
    ChosenByScale(y, yTotal);
    ChosenByScale(x + y, xTotal + yTotal);
  }

  /** The same of two holdings at one price. */
  predicate HoldTogether(a: Holding, b: Holding, price: real)
    requires a.brokerValue.Some? && b.brokerValue.Some? && a.brokerValue.value > 0.0 && b.brokerValue.value > 0.0
  {
    SameTogether(Product(price, a.quantity), a.brokerValue.value, Product(price, b.quantity), b.brokerValue.value)
  }

  /** Two snapshot accounts are worth the same consolidated as apart without a cached close always;
      with one exactly when both are in scale; or one is, to the cent, and the whole is not; or
      neither is, and the whole is not either or matches its total to the cent. */
  lemma SnapshotsAddUpExactly(a: Holding, b: Holding, prices: Prices, rates: Rates)
    requires Sound(a, prices) && Sound(b, prices) && a.ticker == b.ticker
    requires a.brokerValue.Some? && b.brokerValue.Some?
    ensures AddUp(a, b, Consolidated(a, b), prices, rates)
       <==> a.ticker !in prices || HoldTogether(a, b, prices[a.ticker].close)
  {
    var joint := Consolidated(a, b);
    ConsolidatedIsSound(a, b, prices);
    if a.ticker in prices {
      var price := prices[a.ticker].close;
      WorthAtClose(a, prices, rates);
      WorthAtClose(b, prices, rates);
      WorthAtClose(joint, prices, rates);
      Distribute(price, a.quantity, b.quantity);
      ChosenTogether(Product(price, a.quantity), a.brokerValue.value, Product(price, b.quantity), b.brokerValue.value);
    } else {
      WorthWithoutClose(a, prices, rates);
      WorthWithoutClose(b, prices, rates);
      WorthWithoutClose(joint, prices, rates);
    }
  }

  lemma ChosenBeside(x: real, y: real, total: real)
    requires x > 0.0 && y > 0.0 && total > 0.0
    ensures Chosen(x + y, total) == x + Chosen(y, total) <==> Coherent(y, total) && x + y <= 2.0 * total
  {
    ChosenByScale(y, total);
    ChosenByScale(x + y, total);
  }

  /** A ledger account has no broker total, but its shares are in the consolidated quantity. The
      consolidated value is the sum of the accounts' exactly when there is a cached close, the
      snapshot account is in scale with its own total, and all shares together are worth at most
      twice that total. */
  lemma MixedSourcesAddUpExactly(ledger: Holding, snapshot: Holding, prices: Prices, rates: Rates)
    requires Sound(ledger, prices) && Sound(snapshot, prices) && ledger.ticker == snapshot.ticker
    requires ledger.brokerValue.None? && snapshot.brokerValue.Some?
    ensures AddUp(ledger, snapshot, Consolidated(ledger, snapshot), prices, rates)
       <==> && ledger.ticker in prices
            && Coherent(Product(prices[ledger.ticker].close, snapshot.quantity), snapshot.brokerValue.value)
            && Product(prices[ledger.ticker].close, ledger.quantity + snapshot.quantity)
               <= 2.0 * snapshot.brokerValue.value
  {
    var joint := Consolidated(ledger, snapshot);
    ConsolidatedIsSound(ledger, snapshot, prices);
    if ledger.ticker in prices {
      var price := prices[ledger.ticker].close;
      WorthAtClose(ledger, prices, rates);
      WorthAtClose(snapshot, prices, rates);
      WorthAtClose(joint, prices, rates);
      Distribute(price, ledger.quantity, snapshot.quantity);
      ChosenBeside(Product(price, ledger.quantity), Product(price, snapshot.quantity), snapshot.brokerValue.value);
    } else {
      WorthWithoutClose(ledger, prices, rates);
      WorthWithoutClose(snapshot, prices, rates);
    }
  }

  /** Without a cached close the ledger part is worth nothing known. The consolidated row is worth
      what the snapshot part is, at the broker's total spread over all shares, and the ledger part's
      whole cost is taken off the snapshot part's gain: a loss nobody made. */
  lemma NoCloseDilutes(ledger: Holding, snapshot: Holding, joint: Holding, prices: Prices, rates: Rates)
    requires Sound(ledger, prices) && Sound(snapshot, prices) && Sound(joint, prices)
    requires ledger.ticker == snapshot.ticker == joint.ticker && ledger.ticker !in prices
    requires ledger.brokerValue.None? && snapshot.brokerValue.Some? && joint.brokerValue == snapshot.brokerValue
    requires joint.quantity == ledger.quantity + snapshot.quantity
    requires joint.costBasis == ledger.costBasis + snapshot.costBasis && joint.currency == snapshot.currency
    ensures Valuable(UNVALUED, ledger, prices) && Valuable(UNVALUED, snapshot, prices)
    ensures Valuable(UNVALUED, joint, prices)
    ensures var apart, held, all :=
        Valued(ledger, prices, rates), Valued(snapshot, prices, rates), Valued(joint, prices, rates);
      && apart.valueLocal == None && held.valueLocal == all.valueLocal == snapshot.brokerValue
      && all.lastPrice == Some(Quotient(snapshot.brokerValue.value, ledger.quantity + snapshot.quantity))
      && (snapshot.currency in rates ==>
            held.gain.Some? && all.gain.Some?
            && all.gain.value == held.gain.value - Product(ledger.costBasis, rates[snapshot.currency]))
  {
    WorthWithoutClose(ledger, prices, rates);
    WorthWithoutClose(snapshot, prices, rates);
    WorthWithoutClose(joint, prices, rates);
    if snapshot.currency in rates {
      Distribute(rates[snapshot.currency], ledger.costBasis, snapshot.costBasis);
    }
  }

  /** A reader's row of some shares of X, bought at 5. */
  function Shares(quantity: real, total: Option<real>): Holding {
    var h := Holding("X", quantity, 5.0, 5.0 * quantity, "USD", None, total, None);
    h.(brokerPrice := TotalPerShare(h))
  }

  const TEN_A_SHARE: Prices := map["X" := Close(10.0, 1)]

  /** What a row is worth in its own currency. */
  function Worth(h: Holding, prices: Prices): Option<real>
    requires Valuable(UNVALUED, h, prices)
  {
    Valued(h, prices, map["USD" := 1.0]).valueLocal
  }

  lemma WorthAtTen(h: Holding, product: real)
    requires h.ticker == "X" && h.quantity > 0.0 && h.brokerPrice == TotalPerShare(h) && product == 10.0 * h.quantity
    requires h.brokerValue.Some? ==> h.brokerValue.value > 0.0
    ensures Valuable(UNVALUED, h, TEN_A_SHARE)
    ensures Worth(h, TEN_A_SHARE)
         == Some(if h.brokerValue.None? || InScale(product, h.brokerValue.value) then product else h.brokerValue.value)
  {
    WorthAtClose(h, TEN_A_SHARE, map["USD" := 1.0]);
    if h.brokerValue.Some? {
      ChosenByScale(product, h.brokerValue.value);
    }
  }

  /** At a close of 10. Nine ledger shares and one snapshot share with a total of 10: 100 apart, 10
      together. With a total of 100 instead: 190 apart, 100 together. Ten shares in each of two
      snapshot accounts with totals 30 and 100: 130 apart, 200 together. */
  lemma ConsolidationCanChangeValue()
    ensures var ledger, one, hundred := Shares(9.0, None), Shares(1.0, Some(10.0)), Shares(1.0, Some(100.0));
      && (forall h | h in {ledger, one, hundred, Consolidated(ledger, one), Consolidated(ledger, hundred)} ::
            Valuable(UNVALUED, h, TEN_A_SHARE))
      && Worth(ledger, TEN_A_SHARE) == Some(90.0) && Worth(one, TEN_A_SHARE) == Some(10.0)
      && Worth(Consolidated(ledger, one), TEN_A_SHARE) == Some(10.0)
      && Worth(hundred, TEN_A_SHARE) == Some(100.0) && Worth(Consolidated(ledger, hundred), TEN_A_SHARE) == Some(100.0)
  {
    var ledger, one, hundred := Shares(9.0, None), Shares(1.0, Some(10.0)), Shares(1.0, Some(100.0));
    WorthAtTen(ledger, 90.0);
    WorthAtTen(one, 10.0);
    WorthAtTen(hundred, 10.0);
    WorthAtTen(Consolidated(ledger, one), 100.0);
    WorthAtTen(Consolidated(ledger, hundred), 100.0);
  }

  lemma TwoSnapshotsCanChangeValue()
    ensures var a, b := Shares(10.0, Some(30.0)), Shares(10.0, Some(100.0));
      && (forall h | h in {a, b, Consolidated(a, b)} :: Valuable(UNVALUED, h, TEN_A_SHARE))
      && Worth(a, TEN_A_SHARE) == Some(30.0) && Worth(b, TEN_A_SHARE) == Some(100.0)
      && Worth(Consolidated(a, b), TEN_A_SHARE) == Some(200.0)
  {
    var a, b := Shares(10.0, Some(30.0)), Shares(10.0, Some(100.0));
    var both := Consolidated(a, b);
    JointShares(10.0, Some(30.0), 10.0, Some(100.0), both);
    WorthIs(a, 100.0, 30.0, 30.0);
    WorthIs(b, 100.0, 100.0, 100.0);
    WorthIs(both, 200.0, 130.0, 200.0);
  }

  lemma WorthIs(h: Holding, product: real, total: real, worth: real)
    requires h.ticker == "X" && h.quantity > 0.0 && h.brokerPrice == TotalPerShare(h) && product == 10.0 * h.quantity
    requires h.brokerValue == Some(total) && total > 0.0
    requires worth == if 0.5 * total <= product <= 2.0 * total then product else total
    ensures Valuable(UNVALUED, h, TEN_A_SHARE) && Worth(h, TEN_A_SHARE) == Some(worth)
  {
    WorthAtTen(h, product);
  }

  lemma JointShares(x: real, total: Option<real>, y: real, total': Option<real>, both: Holding)
    requires both == Consolidated(Shares(x, total), Shares(y, total'))
    ensures both.ticker == "X" && both.quantity == x + y && both.brokerPrice == TotalPerShare(both)
    ensures both.brokerValue == (if total.None? then total' else if total'.None? then total
                                 else Some(total.value + total'.value))
  {
  }

  /** No close: nine ledger shares beside one snapshot share worth 10, all bought at 5. The share alone
      gains 5; all ten together are priced at 1, worth 10, and lose 40. */
  lemma NoCloseInventsALoss()
    ensures var ledger, one := Shares(9.0, None), Shares(1.0, Some(10.0));
      var all := Consolidated(ledger, one);
      && Valuable(UNVALUED, one, map[]) && Valuable(UNVALUED, all, map[])
      && var held, joint := Valued(one, map[], map["USD" := 1.0]), Valued(all, map[], map["USD" := 1.0]);
         && held.gain == Some(5.0) && held.lastPrice == Some(10.0)
         && joint.valueLocal == Some(10.0) && joint.lastPrice == Some(1.0) && joint.gain == Some(-40.0)
  {
    var ledger, one := Shares(9.0, None), Shares(1.0, Some(10.0));
    var all := Consolidated(ledger, one);
    JointShares(9.0, None, 1.0, Some(10.0), all);
    WithoutCloseIs(one, 10.0, 10.0, 5.0, 5.0);
    WithoutCloseIs(all, 10.0, 1.0, 50.0, -40.0);
  }

  lemma WithoutCloseIs(h: Holding, total: real, price: real, cost: real, gain: real)
    requires h.currency == "USD" && h.quantity > 0.0 && h.brokerValue == Some(total) && total > 0.0
    requires h.brokerPrice == TotalPerShare(h) && Product(price, h.quantity) == total
    requires h.costBasis == cost && gain == total - cost
    ensures Valuable(UNVALUED, h, map[])
    ensures var f := Valued(h, map[], map["USD" := 1.0]);
      f.valueLocal == Some(total) && f.lastPrice == Some(price) && f.gain == Some(gain)
  {
    QuotientIs(total, h.quantity, price);
    WorthWithoutClose(h, map[], map["USD" := 1.0]);
    BaseFigures(h, map[], map["USD" := 1.0]);
  }
}
