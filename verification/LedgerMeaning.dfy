/** What a history does to cash, lots and gains, on the transactions themselves:
    portfolio_analytics/domain/ledger.py. */
module LedgerMeaning {
  import opened Arithmetic
  import opened Wrappers
  import Sorting
  import opened Sums
  import opened FifoLedger
  import opened LedgerReplay
  import opened LedgerAccounting

  // ---------- Cash ----------

  /** What one transaction moves in cash: income in, withdrawals and fees out, a sale's price less its
      fees in, and a purchase's price and fees out, or its amount when it has no price. */
  function CashMoved(): Txn -> real {
    (x: Txn) =>
      match x.kind
      case Deposit => x.amount
      case Dividend => x.amount
      case Interest => x.amount
      case Withdrawal => 0.0 - x.amount
      case Fee => 0.0 - x.amount
      case Sell => if x.quantity > 0.0 then Product(x.quantity, x.price) - x.fees else 0.0
      case Buy => 0.0 - Paid(x)
      case Reinvestment => 0.0 - Paid(x)
      case Split => 0.0
      case TransferIn => 0.0
      case TransferOut => 0.0
  }

  function Paid(x: Txn): real {
    if x.quantity <= 0.0 then 0.0
    else if x.price > 0.0 then Product(x.quantity, x.price) + x.fees
    else if x.amount > 0.0 then x.amount
    else x.fees
  }

  lemma CashStep(b: Books, x: Txn, b': Books)
    requires Apply(b, x) == Ok(b')
    ensures b'.cash == b.cash + CashMoved()(x)
  {
  }

  /** Over any history the cash is what the transactions move, each once. */
  lemma {:induction false} CashIsWhatMoved(b: Books, txns: seq<Txn>, b': Books)
    requires Replay(b, txns) == Ok(b')
    ensures b'.cash == b.cash + TotalBy(txns, CashMoved())
    decreases |txns|
  {
    if |txns| > 0 {
      CashStep(b, txns[0], Apply(b, txns[0]).value);
      CashIsWhatMoved(Apply(b, txns[0]).value, txns[1..], b');
    }
  }

  // ---------- Lots opened ----------

  /** What the shares received are worth as carried: at the reported basis, else at market value. */
  function Carried(x: Txn): real {
    if x.price > 0.0 then Product(x.quantity, x.price) else if x.amount > 0.0 then x.amount else 0.0
  }

  /** A purchase opens one lot of its shares on its day at what was paid for them; shares received in
      kind open one at what they carry. */
  lemma LotOpenedAtCost(b: Books, x: Txn, b': Books)
    requires Apply(b, x) == Ok(b') && x.quantity > 0.0
    requires x.kind.Buy? || x.kind.Reinvestment? || x.kind.TransferIn?
    ensures |LotsOf(b', x.ticker)| == |LotsOf(b, x.ticker)| + 1
    ensures var lots, lots' := LotsOf(b, x.ticker), LotsOf(b', x.ticker);
      && lots'[..|lots|] == lots
      && var lot := lots'[|lots|];
         && lot.ticker == x.ticker && lot.openDate == x.when && lot.quantity == x.quantity
         && Product(lot.quantity, lot.costPerShare) == if x.kind.TransferIn? then Carried(x) else Paid(x)
    ensures b'.realized == b.realized && forall t | t != x.ticker :: LotsOf(b', t) == LotsOf(b, t)
  {
    if x.kind.TransferIn? {
      CarriedCost(x);
    } else {
      PurchaseCostsItsCash(x);
    }
  }

  lemma CarriedCost(x: Txn)
    requires x.quantity > 0.0
    ensures Product(x.quantity, TransferCost(x)) == Carried(x)
  {
    QuotientTimes(x.amount, x.quantity);
  }

  // ---------- Sales ----------

  /** A sale or transfer out is refused exactly when it asks for over a billionth of a share more than
      the open lots hold together, and the failure says how much that is. */
  lemma RefusedExactly(b: Books, x: Txn)
    requires Sends(x) && x.quantity > 0.0
    ensures var held := TotalBy(LotsOf(b, x.ticker), (l: Lot) => l.quantity);
      && (Apply(b, x).Err? <==> x.quantity > held + 0.000000001)
      && (Apply(b, x).Err? ==> Apply(b, x).error == Oversold(x.ticker, x.when, x.quantity, held))
  {
    SharesAreTotal(LotsOf(b, x.ticker));
  }

  lemma {:induction false} SharesAreTotal(lots: seq<Lot>)
    ensures Shares(lots) == TotalBy(lots, (l: Lot) => l.quantity)
    decreases |lots|
  {
    if |lots| > 0 {
      SharesAreTotal(lots[1..]);
    }
  }

  /** The share of a sale's net proceeds that falls to some of its shares. */
  predicate ProRata(gain: RealizedGain, x: Txn) {
    Product(gain.proceeds, x.quantity) == Product(gain.quantity, Product(x.quantity, x.price) - x.fees)
  }

  lemma {:induction false} ReliefProceedsEach(lots: seq<Lot>, quantity: real, day: int, pps: real)
    ensures forall g | g in Relief(lots, quantity, day, pps).gains ::
      g.proceeds == Product(g.quantity, pps) && g.closeDate == day
    decreases |lots|
  {
    if quantity > EPS && |lots| > 0 && lots[0].quantity <= quantity {
      ReliefProceedsEach(lots[1..], quantity - lots[0].quantity, day, pps);
    }
  }

  lemma NetTimesQuantity(x: Txn)
    requires x.quantity > 0.0
    ensures Product(NetPrice(x), x.quantity) == Product(x.quantity, x.price) - x.fees
  {
    QuotientTimes(x.fees, x.quantity);
    Distribute(x.quantity, NetPrice(x), x.fees / x.quantity);
  }

  lemma GainIsProRata(g: RealizedGain, x: Txn)
    requires x.quantity > 0.0 && g.proceeds == Product(g.quantity, NetPrice(x))
    ensures ProRata(g, x)
  {
    NetTimesQuantity(x);
    ProductAssociates(g.quantity, NetPrice(x), x.quantity);
  }

  /** The gains a sale adds close on its day, are its ticker's lots in order at their own cost, and share
      its price less fees by their shares. A transfer out adds none. */
  lemma SaleGains(b: Books, x: Txn, b': Books)
    requires Apply(b, x) == Ok(b') && Sends(x) && x.quantity > 0.0
    ensures |b.realized| <= |b'.realized| && b'.realized[..|b.realized|] == b.realized
    ensures x.kind.TransferOut? ==> b'.realized == b.realized
    ensures x.kind.Sell? ==>
      var gains := b'.realized[|b.realized|..];
      ClosesInOrder(LotsOf(b, x.ticker), gains, x.when)
      && forall g | g in gains :: g.closeDate == x.when && ProRata(g, x)
  {
    if x.kind.Sell? {
      var lots := LotsOf(b, x.ticker);
      var gains := Relief(lots, x.quantity, x.when, NetPrice(x)).gains;
      ReliefClosesInOrder(lots, x.quantity, x.when, NetPrice(x));
      ReliefProceedsEach(lots, x.quantity, x.when, NetPrice(x));
      assert b'.realized == b.realized + gains && b'.realized[|b.realized|..] == gains;
      forall g | g in gains ensures ProRata(g, x) {
        GainIsProRata(g, x);
      }
    }
  }

  // ---------- The order of the replay ----------

  function OnDay(day: int): Txn -> bool {
    (x: Txn) => x.when == day
  }

  /** A history is replayed by date, and the transactions of one day in the order they were recorded. */
  lemma ReplayedByDateThenRecord(txns: seq<Txn>, day: int)
    ensures var ordered := Sorting.Sort(txns, ByWhen());
      && multiset(ordered) == multiset(txns)
      && (forall i, j | 0 <= i < j < |ordered| :: ordered[i].when <= ordered[j].when)
      && Sorting.Filter(ordered, OnDay(day)) == Sorting.Filter(txns, OnDay(day))
  {
    var ordered := Sorting.Sort(txns, ByWhen());
    Sorting.SortPermutes(txns, ByWhen());
    Sorting.SortSorts(txns, ByWhen());
    Sorting.EqualsKeepOrder(txns, ByWhen(), OnDay(day));
    forall i, j | 0 <= i < j < |ordered| ensures ordered[i].when <= ordered[j].when {
      assert ByWhen()(ordered[i], ordered[j]);
    }
  }
}
