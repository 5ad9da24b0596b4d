/** Replaying a whole history into a ledger: `build_ledger` and the per-transaction handlers of
    portfolio_analytics/domain/ledger.py. */
module LedgerReplay {
  import opened Wrappers
  import opened FifoLedger
  import Sorting

  function LotsOf(b: Books, t: Ticker): seq<Lot> {
    if t in b.openLots then b.openLots[t] else []
  }

  // ---------- One transaction ----------

  /** Cost per share of a purchase: reported price plus fees, else amount, else fees alone. */
  function PurchaseCost(t: Txn): real
    requires t.quantity > 0.0
  {
    if t.price > 0.0 then t.price + t.fees / t.quantity
    else if t.amount > 0.0 then t.amount / t.quantity
    else t.fees / t.quantity
  }

  function CashOut(t: Txn): real {
    if t.price > 0.0 then t.quantity * t.price + t.fees
    else if t.amount > 0.0 then t.amount
    else t.fees
  }

  /** Carried basis of shares received in kind, else their market value, else nothing. */
  function TransferCost(t: Txn): real
    requires t.quantity > 0.0
  {
    if t.price > 0.0 then t.price
    else if t.amount > 0.0 then t.amount / t.quantity
    else 0.0
  }

  function Opened(b: Books, t: Txn, cost: real): Books {
    b.(openLots := b.openLots[t.ticker := LotsOf(b, t.ticker) + [Lot(t.ticker, t.when, t.quantity, cost)]])
  }

  function NetPrice(t: Txn): real
    requires t.quantity > 0.0
  {
    t.price - t.fees / t.quantity
  }

  /** Lots relieved in place: a ticker never seen stays unseen. */
  function Left(b: Books, t: Ticker, left: seq<Lot>): Books {
    if t in b.openLots then b.(openLots := b.openLots[t := left]) else b
  }

  function Scale(lots: seq<Lot>, ratio: real): seq<Lot>
    requires ratio > 0.0
  {
    if |lots| == 0 then [] else [ScaledLot(lots[0], ratio)] + Scale(lots[1..], ratio)
  }

  function ScaledLot(lot: Lot, ratio: real): Lot
    requires ratio > 0.0
  {
    lot.(quantity := lot.quantity * ratio, costPerShare := lot.costPerShare / ratio)
  }

  predicate Exceeds(b: Books, t: Txn) {
    t.quantity > Shares(LotsOf(b, t.ticker)) + EPS
  }

  function Shortfall(b: Books, t: Txn): Oversold {
    Oversold(t.ticker, t.when, t.quantity, Shares(LotsOf(b, t.ticker)))
  }

  function Sold(b: Books, t: Txn): Books
    requires t.quantity > 0.0
  {
    var r := Relief(LotsOf(b, t.ticker), t.quantity, t.when, NetPrice(t));
    Left(b, t.ticker, r.left).(realized := b.realized + r.gains, cash := b.cash + (t.quantity * t.price - t.fees))
  }

  function SentOut(b: Books, t: Txn): Books {
    Left(b, t.ticker, Relief(LotsOf(b, t.ticker), t.quantity, t.when, 0.0).left)
  }

  function CashEffect(t: Txn): real {
    if t.kind.Deposit? || t.kind.Dividend? || t.kind.Interest? then t.amount
    else if t.kind.Withdrawal? || t.kind.Fee? then -t.amount
    else 0.0
  }

  predicate CashOnly(kind: TxnType) {
    kind.Deposit? || kind.Dividend? || kind.Interest? || kind.Withdrawal? || kind.Fee?
  }

  function Apply(b: Books, t: Txn): Result<Books, Oversold> {
    if CashOnly(t.kind) then Ok(b.(cash := b.cash + CashEffect(t)))
    else if t.quantity <= 0.0 then Ok(b)
    else if t.kind.Sell? then if Exceeds(b, t) then Err(Shortfall(b, t)) else Ok(Sold(b, t))
    else if t.kind.TransferOut? then if Exceeds(b, t) then Err(Shortfall(b, t)) else Ok(SentOut(b, t))
    else if t.kind.Split? then Ok(Left(b, t.ticker, Scale(LotsOf(b, t.ticker), t.quantity)))
    else if t.kind.TransferIn? then Ok(Opened(b, t, TransferCost(t)))
    else Ok(Opened(b, t, PurchaseCost(t)).(cash := b.cash - CashOut(t)))
  }

  function Replay(b: Books, txns: seq<Txn>): Result<Books, Oversold>
    decreases |txns|
  {
    if |txns| == 0 then Ok(b)
    else
      match Apply(b, txns[0])
      case Err(e) => Err(e)
      case Ok(next) => Replay(next, txns[1..])
  }

  function ByWhen(): (Txn, Txn) -> bool {
    (a: Txn, b: Txn) => a.when <= b.when
  }

  function Built(txns: seq<Txn>): Result<Books, Oversold> {
    Replay(EMPTY, Sorting.Sort(txns, ByWhen()))
  }

  // ---------- The ledger object ----------

  class Ledger {
    var openLots: map<Ticker, seq<Lot>>
    var realized: seq<RealizedGain>
    var cash: real

    constructor ()
      ensures State() == EMPTY
    {
      openLots, realized, cash := map[], [], 0.0;
    }

    ghost function State(): Books
      reads this
    {
      Books(openLots, realized, cash)
    }

    method Open(t: Txn, cost: real)
      modifies this`openLots
      ensures State() == Opened(old(State()), t, cost)
    {
      if t.ticker !in openLots {
        openLots := openLots[t.ticker := []];
      }
      openLots := openLots[t.ticker := openLots[t.ticker] + [Lot(t.ticker, t.when, t.quantity, cost)]];
    }

    method BuyShares(t: Txn)
      requires t.kind == Buy || t.kind == Reinvestment
      modifies this
      ensures Apply(old(State()), t) == Ok(State())
    {
      if t.quantity <= 0.0 { return; }
      Open(t, PurchaseCost(t));
      cash := cash - CashOut(t);
    }

    method SellShares(t: Txn) returns (failure: Option<Oversold>)
      requires t.kind == Sell
      modifies this
      ensures failure.None? ==> Apply(old(State()), t) == Ok(State())
      ensures failure.Some? ==> Apply(old(State()), t) == Err(failure.value) && State() == old(State())
    {
      if t.quantity <= 0.0 { return None; }
      var lots := if t.ticker in openLots then openLots[t.ticker] else [];
      var available := SumShares(lots);
      if t.quantity > available + EPS {
        return Some(Oversold(t.ticker, t.when, t.quantity, available));
      }
      var gains, left := RelieveLots(lots, t.quantity, t.when, NetPrice(t));
      realized := realized + gains;
      if t.ticker in openLots {
        openLots := openLots[t.ticker := left];
      }
      cash := cash + (t.quantity * t.price - t.fees);
      failure := None;
      assert lots == LotsOf(old(State()), t.ticker);
      assert State().realized == Sold(old(State()), t).realized;
      assert State().cash == Sold(old(State()), t).cash;
      assert State().openLots == Sold(old(State()), t).openLots;
    }

    method ReceiveShares(t: Txn)
      requires t.kind == TransferIn
      modifies this
      ensures Apply(old(State()), t) == Ok(State())
    {
      if t.quantity <= 0.0 { return; }
      Open(t, TransferCost(t));
    }

    method SendShares(t: Txn) returns (failure: Option<Oversold>)
      requires t.kind == TransferOut
      modifies this
      ensures failure.None? ==> Apply(old(State()), t) == Ok(State())
      ensures failure.Some? ==> Apply(old(State()), t) == Err(failure.value) && State() == old(State())
    {
      if t.quantity <= 0.0 { return None; }
      var lots := if t.ticker in openLots then openLots[t.ticker] else [];
      var available := SumShares(lots);
      if t.quantity > available + EPS {
        return Some(Oversold(t.ticker, t.when, t.quantity, available));
      }
      var _, left := RelieveLots(lots, t.quantity, t.when, 0.0);
      if t.ticker in openLots {
        openLots := openLots[t.ticker := left];
      }
      failure := None;
    }

    method SplitShares(t: Txn)
      requires t.kind == Split
      modifies this
      ensures Apply(old(State()), t) == Ok(State())
    {
      if t.quantity <= 0.0 { return; }
      if t.ticker in openLots {
        var scaled := ScaleLots(openLots[t.ticker], t.quantity);
        openLots := openLots[t.ticker := scaled];
      }
    }

    method Process(t: Txn) returns (failure: Option<Oversold>)
      modifies this
      ensures failure.None? ==> Apply(old(State()), t) == Ok(State())
      ensures failure.Some? ==> Apply(old(State()), t) == Err(failure.value) && State() == old(State())
    {
      failure := None;
      match t.kind {
        case Deposit => cash := cash + t.amount;
        case Withdrawal => cash := cash - t.amount;
        case Dividend => cash := cash + t.amount;
        case Interest => cash := cash + t.amount;
        case Fee => cash := cash - t.amount;
        case Buy => BuyShares(t);
        case Reinvestment => BuyShares(t);
        case Sell => failure := SellShares(t);
        case Split => SplitShares(t);
        case TransferIn => ReceiveShares(t);
        case TransferOut => failure := SendShares(t);
      }
    }
  }

  method SumShares(lots: seq<Lot>) returns (sum: real)
    ensures sum == Shares(lots)
  {
    sum := 0.0;
    for i := 0 to |lots|
      invariant sum + Shares(lots[i..]) == Shares(lots)
    {
      assert lots[i..][1..] == lots[i + 1..];
      sum := sum + lots[i].quantity;
    }
  }

  method ScaleLots(lots: seq<Lot>, ratio: real) returns (scaled: seq<Lot>)
    requires ratio > 0.0
    ensures scaled == Scale(lots, ratio)
  {
    scaled := [];
    for i := 0 to |lots|
      invariant scaled + Scale(lots[i..], ratio) == Scale(lots, ratio)
    {
      var lot := ScaledLot(lots[i], ratio);
      assert lots[i..][0] == lots[i] && lots[i..][1..] == lots[i + 1..];
      assert scaled + [lot] + Scale(lots[i + 1..], ratio) == scaled + Scale(lots[i..], ratio);
      scaled := scaled + [lot];
    }
  }

  method BuildLedger(txns: seq<Txn>) returns (ledger: Ledger, failure: Option<Oversold>)
    ensures fresh(ledger)
    ensures failure.None? ==> Built(txns) == Ok(ledger.State())
    ensures failure.Some? ==> Built(txns) == Err(failure.value)
  {
    ledger := new Ledger();
    var ordered := Sorting.Sort(txns, ByWhen());
    for i := 0 to |ordered|
      invariant fresh(ledger)
      invariant Replay(ledger.State(), ordered[i..]) == Built(txns)
    {
      assert ordered[i..][1..] == ordered[i + 1..];
      failure := ledger.Process(ordered[i]);
      if failure.Some? {
        return;
      }
    }
    failure := None;
  }

  // ---------- When a replay fails ----------

  /** Transaction `i` asks for more shares than the history before it left. */
  ghost predicate OversellsAt(b: Books, txns: seq<Txn>, i: nat) {
    && i < |txns| && Replay(b, txns[..i]).Ok?
    && (txns[i].kind == Sell || txns[i].kind == TransferOut) && txns[i].quantity > 0.0
    && Exceeds(Replay(b, txns[..i]).value, txns[i])
  }

  lemma ReplayOne(b: Books, t: Txn, rest: seq<Txn>)
    ensures Apply(b, t).Ok? ==> Replay(b, [t] + rest) == Replay(Apply(b, t).value, rest)
    ensures Apply(b, t).Err? ==> Replay(b, [t] + rest) == Err(Apply(b, t).error)
  {
    assert ([t] + rest)[1..] == rest;
  }

  lemma OversellShifts(b: Books, next: Books, txns: seq<Txn>, i: nat)
    requires |txns| > 0 && Apply(b, txns[0]) == Ok(next)
    ensures OversellsAt(b, txns, i + 1) <==> OversellsAt(next, txns[1..], i)
  {
    if i + 1 < |txns| {
      assert txns[..i + 1] == [txns[0]] + txns[1..][..i];
      ReplayOne(b, txns[0], txns[1..][..i]);
    }
  }

  /** A replay fails exactly when some sale or transfer out exceeds what was held by then. */
  lemma {:induction false} FailsExactlyOnOversell(b: Books, txns: seq<Txn>)
    ensures Replay(b, txns).Err? <==> exists i: nat :: OversellsAt(b, txns, i)
    decreases |txns|
  {
    if |txns| > 0 {
      assert txns[..0] == [];
      if Apply(b, txns[0]).Err? {
        assert OversellsAt(b, txns, 0);
      } else {
        var next := Apply(b, txns[0]).value;
        FailsExactlyOnOversell(next, txns[1..]);
        if exists i: nat :: OversellsAt(next, txns[1..], i) {
          var i: nat :| OversellsAt(next, txns[1..], i);
          OversellShifts(b, next, txns, i);
          assert OversellsAt(b, txns, i + 1);
        }
        if exists i: nat :: OversellsAt(b, txns, i) {
          var i: nat :| OversellsAt(b, txns, i);
          assert i > 0;
          OversellShifts(b, next, txns, i - 1);
        }
      }
    }
  }
}
