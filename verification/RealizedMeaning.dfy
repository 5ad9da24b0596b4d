/** What a realized lot says: its source, its currency and the rate of its own close date;
    `_realized` in api/services/analytics.py. */
module RealizedMeaning {
  import opened Wrappers
  import opened PortfolioLedger
  import opened PortfolioData
  import opened Realized
  import opened RealizedSplit
  import Sorting

  /** The lot is a stored one of the scope in its own currency, or a replayed one in the currency its
      ticker resolves to. */
  ghost predicate HasSource(ctx: Context, db: Db, pid: int, scope: Scope, lot: RealizedLot) {
    || (exists l :: l in ctx.stored && l.acct in ScopedAccounts(db, pid, scope) && l.gain == lot.gain
          && lot.currency == if l.currency == "" then "USD" else l.currency)
    || (lot.gain in ReplayedGains(ctx, db, pid, scope)
        && lot.currency == Resolved(ctx, db, ReplayAccounts(ctx, db, pid, scope), lot.gain.ticker))
  }

  lemma MergedHasSource(ctx: Context, db: Db, pid: int, scope: Scope, p: Pending)
    requires p in Merge(ctx, db, pid, scope)
    ensures HasSource(ctx, db, pid, scope, Convert(ctx, db, ReplayAccounts(ctx, db, pid, scope))(p))
  {
    var accts := ScopedAccounts(db, pid, scope);
    var stored, replayed := StoredIn(ctx.stored, accts), ReplayedGains(ctx, db, pid, scope);
    var i :| 0 <= i < |Merge(ctx, db, pid, scope)| && Merge(ctx, db, pid, scope)[i] == p;
    if i < |stored| {
      assert p == AsStored()(stored[i]) && stored[i] in stored;
      StoredMembers(ctx.stored, accts, stored[i]);
    } else {
      assert p == AsReplayed()(replayed[i - |stored|]);
      assert replayed[i - |stored|] in replayed;
    }
  }

  /** Every realized lot has its source, and carries the rate of its own currency on the day it was
      closed, if that is known. */
  lemma EveryLotAtItsClose(ctx: Context, db: Db, pid: int, scope: Scope, lot: RealizedLot)
    requires lot in RealizedLots(ctx, db, pid, scope)
    ensures HasSource(ctx, db, pid, scope, lot)
    ensures lot.rate
         == if (lot.currency, lot.gain.closeDate) in ctx.rates then Some(ctx.rates[(lot.currency, lot.gain.closeDate)])
            else None
  {
    var merged := Merge(ctx, db, pid, scope);
    var ordered := Sorting.Sort(merged, ByClose());
    var lots := RealizedLots(ctx, db, pid, scope);
    var i :| 0 <= i < |lots| && lots[i] == lot;
    Sorting.SortPermutes(merged, ByClose());
    Sorting.InMultiset(ordered, merged, i);
    MergedHasSource(ctx, db, pid, scope, ordered[i]);
  }

  /** Lots come in the order they were closed. */
  lemma LotsInCloseOrder(ctx: Context, db: Db, pid: int, scope: Scope)
    ensures var lots := RealizedLots(ctx, db, pid, scope);
      forall i, j | 0 <= i < j < |lots| :: lots[i].gain.closeDate <= lots[j].gain.closeDate
  {
    var merged := Merge(ctx, db, pid, scope);
    var ordered := Sorting.Sort(merged, ByClose());
    Sorting.SortSorts(merged, ByClose());
    forall i, j | 0 <= i < j < |ordered| ensures ordered[i].gain.closeDate <= ordered[j].gain.closeDate {
      assert ByClose()(ordered[i], ordered[j]);
    }
  }
}
