/** Consolidation conserves positions: what a scope of accounts holds is the sum of what each
    account holds, through its ledger or through its broker snapshot, never both. */
module HoldingsConservation {
  import opened Wrappers
  import opened Sums
  import opened FifoLedger
  import opened LedgerReplay
  import opened LedgerAccounting
  import opened PortfolioLedger
  import opened PortfolioData
  import opened Holdings
  import opened HoldingsReaders
  import Sorting

  // ---------- Lots as a multiset ----------

  lemma LotMiddle(a: seq<Lot>, lot: Lot, b: seq<Lot>)
    ensures Shares(a + [lot] + b) == Shares(a + b) + lot.quantity
         && Basis(a + [lot] + b) == Basis(a + b) + LotBasis(lot)
  {
    LotsAppend(a + [lot], b);
    LotsAppend(a, [lot]);
    LotsAppend(a, b);
    OneLot(lot, []);
    assert [lot] + [] == [lot];
  }

  /** Total shares and total basis do not depend on the order of the lots. */
  lemma {:induction false} TotalsIgnoreOrder(x: seq<Lot>, y: seq<Lot>)
    requires multiset(x) == multiset(y)
    ensures Shares(x) == Shares(y) && Basis(x) == Basis(y)
    decreases |y|
  {
    if |y| == 0 {
      assert |multiset(x)| == 0;
    } else {
      var most, lot := y[..|y| - 1], y[|y| - 1];
      assert y == most + [lot];
      assert lot in multiset(y);
      var i :| 0 <= i < |x| && x[i] == lot;
      assert x == x[..i] + [lot] + x[i + 1..];
      RemovedKeepsMultiset(x[..i], lot, x[i + 1..], most);
      TotalsIgnoreOrder(x[..i] + x[i + 1..], most);
      LotMiddle(x[..i], lot, x[i + 1..]);
      LotMiddle(most, lot, []);
      assert most + [lot] + [] == y && most + [] == most;
    }
  }

  ghost predicate PositiveTally(t: Tally) {
    forall lot | lot in t.lots :: lot.quantity > 0.0
  }

  lemma GroupIsPositive(k: Key, group: seq<Txn>, t: Ticker)
    ensures PositiveTally(GroupTally(k, group, t))
  {
    if Built(group).Ok? {
      SharesFollowTheRecord(EMPTY, Sorting.Sort(group, ByWhen()), Built(group).value, t, 0.0, 0.0);
    }
  }

  lemma {:induction false} GatheredIsPositive(txns: seq<Entry>, ks: seq<Key>, t: Ticker)
    ensures PositiveTally(Gathered(txns, ks, t))
    decreases |ks|
  {
    if |ks| > 0 {
      GatheredIsPositive(txns, ks[..|ks| - 1], t);
      GroupIsPositive(ks[|ks| - 1], Group(txns, ks[|ks| - 1]), t);
    }
  }

  lemma MergedLotsArePositive(txns: seq<Entry>, t: Ticker)
    ensures PositiveLots(LotsOf(MergedLedger(txns).books, t))
  {
    MergeIsTheSumOfItsGroups(txns, t);
    GatheredIsPositive(txns, Keys(txns), t);
    forall lot | lot in LotsOf(MergedLedger(txns).books, t) ensures lot.quantity > 0.0 {
      assert lot in multiset(LotsOf(MergedLedger(txns).books, t));
    }
  }

  /** On positive lots the position is simply the totals. */
  lemma LedgerTotals(b: Books, t: Ticker)
    requires PositiveLots(LotsOf(b, t))
    ensures LedgerQuantity(b, t) == Shares(LotsOf(b, t)) && LedgerCost(b, t) == Basis(LotsOf(b, t))
  {
    PositiveShares(LotsOf(b, t));
    PositionHolds(LotsOf(b, t));
  }

  // ---------- Quantity and cost basis of a scope ----------

  function Quantity(rows: Rows, t: Ticker): real {
    if t in rows then rows[t].quantity else 0.0
  }

  function Cost(rows: Rows, t: Ticker): real {
    if t in rows then rows[t].costBasis else 0.0
  }

  lemma ScopeTotals(db: Db, pid: int, scope: Scope, le: Order, t: Ticker)
    ensures Quantity(HoldingsOf(db, pid, scope, le), t)
         == Shares(LotsOf(LedgerBooks(db, pid, scope), t)) + RowQuantity(PositionRows(db, pid, scope), t)
    ensures Cost(HoldingsOf(db, pid, scope, le), t)
         == Basis(LotsOf(LedgerBooks(db, pid, scope), t)) + RowCost(PositionRows(db, pid, scope), t)
  {
    var b, rows := LedgerBooks(db, pid, scope), PositionRows(db, pid, scope);
    MergedLotsArePositive(Entries(db, pid, LedgerAccounts(db, pid, scope)), t);
    LedgerTotals(b, t);
    if t !in HoldingsOf(db, pid, scope, le) {
      NoLotsNoLedger(b, t);
      NoRowsNoSums(rows, t);
    }
  }

  function Share(row: PositionRow, mine: set<Acct>, scope: Scope, t: Ticker, amount: real): real {
    if row.acct in mine && InScope(scope, row.acct) && About(row, t) then amount else 0.0
  }

  lemma SharesSplit(row: PositionRow, mine: set<Acct>, a: set<Acct>, b: set<Acct>, t: Ticker, amount: real)
    requires a !! b
    ensures Share(row, mine, Among(a + b), t, amount)
         == Share(row, mine, Among(a), t, amount) + Share(row, mine, Among(b), t, amount)
  {
  }

  lemma TotalsLast(most: seq<PositionRow>, last: PositionRow, mine: set<Acct>, scope: Scope, t: Ticker, worth: real)
    requires worth == RowWorth(last)
    ensures RowQuantity(RowsOf(most + [last], mine, scope), t)
         == RowQuantity(RowsOf(most, mine, scope), t) + Share(last, mine, scope, t, last.quantity)
    ensures RowCost(RowsOf(most + [last], mine, scope), t)
         == RowCost(RowsOf(most, mine, scope), t) + Share(last, mine, scope, t, worth)
  {
    RowsGrow(most, last);
    OtherRow(RowsOf(most, mine, scope), last, t);
  }

  /** Position rows of disjoint account sets add up, in quantity and in cost. */
  lemma {:induction false} RowsSplit(
    positions: seq<PositionRow>, mine: set<Acct>, a: set<Acct>, b: set<Acct>, t: Ticker)
    requires a !! b
    ensures RowQuantity(RowsOf(positions, mine, Among(a + b)), t)
         == RowQuantity(RowsOf(positions, mine, Among(a)), t) + RowQuantity(RowsOf(positions, mine, Among(b)), t)
    ensures RowCost(RowsOf(positions, mine, Among(a + b)), t)
         == RowCost(RowsOf(positions, mine, Among(a)), t) + RowCost(RowsOf(positions, mine, Among(b)), t)
    decreases |positions|
  {
    if |positions| > 0 {
      var most, last := positions[..|positions| - 1], positions[|positions| - 1];
      var worth := RowWorth(last);
      assert positions == most + [last];
      RowsSplit(most, mine, a, b, t);
      TotalsLast(most, last, mine, Among(a + b), t, worth);
      TotalsLast(most, last, mine, Among(a), t, worth);
      TotalsLast(most, last, mine, Among(b), t, worth);
      SharesSplit(last, mine, a, b, t, last.quantity);
      SharesSplit(last, mine, a, b, t, worth);
    }
  }

  lemma MergedTotalsSplit(txns: seq<Entry>, a: set<Acct>, b: set<Acct>, t: Ticker)
    requires a !! b && forall e | e in txns :: e.acct in a + b
    ensures var both, xs, ys :=
        LotsOf(MergedLedger(txns).books, t), LotsOf(MergedLedger(Kept(txns, In(a))).books, t),
            LotsOf(MergedLedger(Kept(txns, In(b))).books, t);
      Shares(both) == Shares(xs) + Shares(ys) && Basis(both) == Basis(xs) + Basis(ys)
  {
    MergeSplitsOverAccounts(txns, a, b, t);
    var xs, ys := LotsOf(MergedLedger(Kept(txns, In(a))).books, t), LotsOf(MergedLedger(Kept(txns, In(b))).books, t);
    TotalsIgnoreOrder(LotsOf(MergedLedger(txns).books, t), xs + ys);
    LotsAppend(xs, ys);
  }

  lemma EntriesOf(db: Db, pid: int, a: set<Acct>, b: set<Acct>)
    ensures Kept(Entries(db, pid, a + b), In(a)) == Entries(db, pid, a)
    ensures Kept(Entries(db, pid, a + b), In(b)) == Entries(db, pid, b)
    ensures forall e | e in Entries(db, pid, a + b) :: e.acct in a + b
  {
    EntriesNarrow(db, pid, a + b, a);
    EntriesNarrow(db, pid, a + b, b);
    assert (a + b) * a == a && (a + b) * b == b;
    forall e | e in Entries(db, pid, a + b) ensures e.acct in a + b {
      KeptMembers(AllEntries(db.txns), In(PortfolioAccounts(db, pid) * (a + b)), e);
    }
  }

  lemma LedgerSplits(db: Db, pid: int, a: set<Acct>, b: set<Acct>, t: Ticker)
    requires a !! b
    ensures var both, xs, ys :=
        LedgerBooks(db, pid, Among(a + b)), LedgerBooks(db, pid, Among(a)), LedgerBooks(db, pid, Among(b));
      && Shares(LotsOf(both, t)) == Shares(LotsOf(xs, t)) + Shares(LotsOf(ys, t))
      && Basis(LotsOf(both, t)) == Basis(LotsOf(xs, t)) + Basis(LotsOf(ys, t))
  {
    var la, lb := LedgerAccounts(db, pid, Among(a)), LedgerAccounts(db, pid, Among(b));
    assert LedgerAccounts(db, pid, Among(a + b)) == la + lb;
    EntriesOf(db, pid, la, lb);
    MergedTotalsSplit(Entries(db, pid, la + lb), la, lb, t);
  }

  /** Holdings of two disjoint sets of accounts together are the sums of their holdings. */
  lemma ScopesAdd(db: Db, pid: int, a: set<Acct>, b: set<Acct>, le: Order, t: Ticker)
    requires a !! b
    ensures Quantity(HoldingsOf(db, pid, Among(a + b), le), t)
         == Quantity(HoldingsOf(db, pid, Among(a), le), t) + Quantity(HoldingsOf(db, pid, Among(b), le), t)
    ensures Cost(HoldingsOf(db, pid, Among(a + b), le), t)
         == Cost(HoldingsOf(db, pid, Among(a), le), t) + Cost(HoldingsOf(db, pid, Among(b), le), t)
  {
    ScopeTotals(db, pid, Among(a + b), le, t);
    ScopeTotals(db, pid, Among(a), le, t);
    ScopeTotals(db, pid, Among(b), le, t);
    LedgerSplits(db, pid, a, b, t);
    RowsSplit(db.positions, PortfolioAccounts(db, pid), a, b, t);
  }

  lemma {:induction false} SameScopeSameRows(positions: seq<PositionRow>, mine: set<Acct>, x: Scope, y: Scope)
    requires forall a | a in mine :: InScope(x, a) <==> InScope(y, a)
    ensures RowsOf(positions, mine, x) == RowsOf(positions, mine, y)
    decreases |positions|
  {
    if |positions| > 0 {
      SameScopeSameRows(positions[..|positions| - 1], mine, x, y);
    }
  }

  lemma SameScope(db: Db, pid: int, x: Scope, y: Scope, le: Order)
    requires forall a | a in PortfolioAccounts(db, pid) :: InScope(x, a) <==> InScope(y, a)
    ensures HoldingsOf(db, pid, x, le) == HoldingsOf(db, pid, y, le)
  {
    SameScopeSameRows(db.positions, PortfolioAccounts(db, pid), x, y);
    assert ScopedAccounts(db, pid, x) == ScopedAccounts(db, pid, y);
  }

  function EachQuantity(db: Db, pid: int, accts: set<Acct>, le: Order, t: Ticker): map<Acct, real> {
    map a | a in accts :: Quantity(HoldingsOf(db, pid, One(a), le), t)
  }

  function EachCost(db: Db, pid: int, accts: set<Acct>, le: Order, t: Ticker): map<Acct, real> {
    map a | a in accts :: Cost(HoldingsOf(db, pid, One(a), le), t)
  }

  lemma OneMoreAccount(db: Db, pid: int, rest: set<Acct>, a: Acct, le: Order, t: Ticker)
    requires a !in rest
    ensures Quantity(HoldingsOf(db, pid, Among(rest + {a}), le), t)
         == Quantity(HoldingsOf(db, pid, Among(rest), le), t) + Quantity(HoldingsOf(db, pid, One(a), le), t)
    ensures Cost(HoldingsOf(db, pid, Among(rest + {a}), le), t)
         == Cost(HoldingsOf(db, pid, Among(rest), le), t) + Cost(HoldingsOf(db, pid, One(a), le), t)
  {
    ScopesAdd(db, pid, rest, {a}, le, t);
    SameScope(db, pid, One(a), Among({a}), le);
  }

  lemma SumWith(all: map<Acct, real>, rest: map<Acct, real>, a: Acct)
    requires a in all && all - {a} == rest
    ensures SumOf(all) == SumOf(rest) + all[a]
  {
    SumRemove(all, a);
  }

  lemma EachQuantityWith(db: Db, pid: int, rest: set<Acct>, a: Acct, le: Order, t: Ticker)
    requires a !in rest
    ensures SumOf(EachQuantity(db, pid, rest + {a}, le, t))
         == SumOf(EachQuantity(db, pid, rest, le, t)) + Quantity(HoldingsOf(db, pid, One(a), le), t)
  {
    var all, others := EachQuantity(db, pid, rest + {a}, le, t), EachQuantity(db, pid, rest, le, t);
    assert all - {a} == others;
    SumWith(all, others, a);
  }

  lemma EachCostWith(db: Db, pid: int, rest: set<Acct>, a: Acct, le: Order, t: Ticker)
    requires a !in rest
    ensures SumOf(EachCost(db, pid, rest + {a}, le, t))
         == SumOf(EachCost(db, pid, rest, le, t)) + Cost(HoldingsOf(db, pid, One(a), le), t)
  {
    var all, others := EachCost(db, pid, rest + {a}, le, t), EachCost(db, pid, rest, le, t);
    assert all - {a} == others;
    SumWith(all, others, a);
  }

  lemma {:induction false} AccountsAddUp(db: Db, pid: int, accts: set<Acct>, le: Order, t: Ticker)
    ensures Quantity(HoldingsOf(db, pid, Among(accts), le), t) == SumOf(EachQuantity(db, pid, accts, le, t))
    ensures Cost(HoldingsOf(db, pid, Among(accts), le), t) == SumOf(EachCost(db, pid, accts, le, t))
    decreases |accts|
  {
    if accts == {} {
      ScopesAdd(db, pid, {}, {}, le, t);
      assert accts + {} == accts;
    } else {
      var a := AnyOf(accts);
      var rest := accts - {a};
      assert rest + {a} == accts;
      AccountsAddUp(db, pid, rest, le, t);
      OneMoreAccount(db, pid, rest, a, le, t);
      EachQuantityWith(db, pid, rest, a, le, t);
      EachCostWith(db, pid, rest, a, le, t);
    }
  }

  /** Consolidation conserves positions: for every ticker, quantity and cost basis over the whole
      portfolio are the sums over its accounts read one by one. */
  lemma ConsolidationConserves(db: Db, pid: int, le: Order, t: Ticker)
    ensures Quantity(HoldingsOf(db, pid, Whole, le), t)
         == SumOf(EachQuantity(db, pid, PortfolioAccounts(db, pid), le, t))
    ensures Cost(HoldingsOf(db, pid, Whole, le), t) == SumOf(EachCost(db, pid, PortfolioAccounts(db, pid), le, t))
  {
    SameScope(db, pid, Whole, Among(PortfolioAccounts(db, pid)), le);
    AccountsAddUp(db, pid, PortfolioAccounts(db, pid), le, t);
  }

  // ---------- Snapshot accounts' transactions never count ----------

  function TxnsWithout(txns: seq<TxnRow>, accts: set<Acct>): seq<TxnRow> {
    if |txns| == 0 then []
    else
      var most, last := TxnsWithout(txns[..|txns| - 1], accts), txns[|txns| - 1];
      if last.acct in accts then most else most + [last]
  }

  lemma {:induction false} EntriesWithout(txns: seq<TxnRow>, gone: set<Acct>, asked: set<Acct>)
    requires gone !! asked
    ensures Kept(AllEntries(TxnsWithout(txns, gone)), In(asked)) == Kept(AllEntries(txns), In(asked))
    decreases |txns|
  {
    if |txns| > 0 {
      var most, last := txns[..|txns| - 1], txns[|txns| - 1];
      EntriesWithout(most, gone, asked);
      EntriesLast(most, last, asked);
      assert most + [last] == txns;
      if last.acct !in gone {
        EntriesLast(TxnsWithout(most, gone), last, asked);
      }
    }
  }

  lemma EntriesLast(txns: seq<TxnRow>, last: TxnRow, asked: set<Acct>)
    ensures var before := Kept(AllEntries(txns), In(asked));
      Kept(AllEntries(txns + [last]), In(asked)) == if last.acct in asked then before + [ToEntry(last)] else before
  {
    assert (txns + [last])[..|txns|] == txns;
    assert (AllEntries(txns) + [ToEntry(last)])[..|AllEntries(txns)|] == AllEntries(txns);
  }

  lemma {:induction false} LinksLast(txns: seq<TxnRow>, last: TxnRow)
    ensures TxnLinks(txns + [last]) ==
      if last.symbol.Some? then TxnLinks(txns) + [Link(last.acct, last.symbol.value, last.currency)] else TxnLinks(txns)
    decreases |txns|
  {
    if |txns| == 0 {
      assert txns + [last] == [last];
      assert [last][1..] == [];
    } else {
      assert (txns + [last])[1..] == txns[1..] + [last];
      LinksLast(txns[1..], last);
    }
  }

  lemma {:induction false} LinksWithout(txns: seq<TxnRow>, gone: set<Acct>, symbols: set<string>, asked: set<Acct>)
    requires gone !! asked
    ensures Sorting.Filter(TxnLinks(TxnsWithout(txns, gone)), Asked(symbols, asked))
         == Sorting.Filter(TxnLinks(txns), Asked(symbols, asked))
    decreases |txns|
  {
    if |txns| > 0 {
      var most, last := txns[..|txns| - 1], txns[|txns| - 1];
      assert most + [last] == txns;
      LinksWithout(most, gone, symbols, asked);
      LinksLast(most, last);
      if last.symbol.Some? {
        FilterLast(TxnLinks(most), Link(last.acct, last.symbol.value, last.currency), Asked(symbols, asked));
      }
      if last.acct !in gone {
        LinksLast(TxnsWithout(most, gone), last);
        if last.symbol.Some? {
          FilterLast(TxnLinks(TxnsWithout(most, gone)), Link(last.acct, last.symbol.value, last.currency),
              Asked(symbols, asked));
        }
      }
    }
  }

  /** Deleting every transaction of the snapshot-sourced accounts changes no holdings, in any
      scope: those accounts count through their broker positions alone. */
  lemma SnapshotTransactionsNeverCount(db: Db, pid: int, scope: Scope, le: Order)
    ensures HoldingsOf(db.(txns := TxnsWithout(db.txns, SnapshotSourced(db, pid))), pid, scope, le)
         == HoldingsOf(db, pid, scope, le)
  {
    var gone := SnapshotSourced(db, pid);
    var db' := db.(txns := TxnsWithout(db.txns, gone));
    var ids := LedgerAccounts(db, pid, scope);
    assert LedgerAccounts(db', pid, scope) == ids && PositionRows(db', pid, scope) == PositionRows(db, pid, scope);
    EntriesWithout(db.txns, gone, PortfolioAccounts(db, pid) * ids);
    var symbols := Unpriced(LedgerBooks(db, pid, scope), PositionRows(db, pid, scope));
    LinksWithout(db.txns, gone, symbols, ids);
  }
}
