/** Splitting a scope into taxable and tax-advantaged accounts loses and repeats no realized
    lot; in base currency it agrees with the whole scope exactly when currencies resolve alike. */
module RealizedSplit {
  import opened FifoLedger
  import opened PortfolioLedger
  import opened PortfolioData
  import opened HoldingsReaders
  import opened HoldingsConservation
  import opened Realized
  import LinkCurrency
  import Sorting

  // ---------- Bags of mapped lists ----------

  lemma MapAppend<A(!new), B>(f: A -> B, a: seq<A>, b: seq<A>)
    ensures Sorting.Map(f, a + b) == Sorting.Map(f, a) + Sorting.Map(f, b)
  {
  }

  lemma MapMiddle<A(!new), B>(f: A -> B, a: seq<A>, x: A, b: seq<A>)
    ensures multiset(Sorting.Map(f, a + [x] + b)) == multiset(Sorting.Map(f, a + b)) + multiset{f(x)}
  {
    MapAppend(f, a + [x], b);
    MapAppend(f, a, [x]);
    MapAppend(f, a, b);
    assert Sorting.Map(f, [x]) == [f(x)];
  }

  /** Mapping lists with equal content gives lists with equal content. */
  lemma {:induction false} MapBag<A(!new), B>(f: A -> B, s: seq<A>, s': seq<A>)
    requires multiset(s) == multiset(s')
    ensures multiset(Sorting.Map(f, s)) == multiset(Sorting.Map(f, s'))
    decreases |s'|
  {
    if |s'| == 0 {
      assert |multiset(s)| == 0;
    } else {
      var most, x := s'[..|s'| - 1], s'[|s'| - 1];
      assert s' == most + [x];
      assert x in multiset(s');
      var i :| 0 <= i < |s| && s[i] == x;
      assert s == s[..i] + [x] + s[i + 1..];
      RemovedKeepsMultiset(s[..i], x, s[i + 1..], most);
      MapBag(f, s[..i] + s[i + 1..], most);
      MapMiddle(f, s[..i], x, s[i + 1..]);
      MapMiddle(f, most, x, []);
      assert most + [x] + [] == s' && most + [] == most;
    }
  }

  lemma MapBagSum<A(!new), B>(f: A -> B, s: seq<A>, a: seq<A>, b: seq<A>)
    requires multiset(s) == multiset(a) + multiset(b)
    ensures multiset(Sorting.Map(f, s)) == multiset(Sorting.Map(f, a)) + multiset(Sorting.Map(f, b))
  {
    MapBag(f, s, a + b);
    MapAppend(f, a, b);
  }

  // ---------- The two sources split over disjoint accounts ----------

  lemma {:induction false} StoredSplits(stored: seq<StoredLot>, a: set<Acct>, b: set<Acct>)
    requires a !! b
    ensures multiset(StoredIn(stored, a + b)) == multiset(StoredIn(stored, a)) + multiset(StoredIn(stored, b))
    decreases |stored|
  {
    if |stored| > 0 {
      StoredSplits(stored[..|stored| - 1], a, b);
    }
  }

  lemma {:induction false} StoredMembers(stored: seq<StoredLot>, accts: set<Acct>, l: StoredLot)
    ensures l in StoredIn(stored, accts) <==> l in stored && l.acct in accts
    decreases |stored|
  {
    if |stored| > 0 {
      assert stored == stored[..|stored| - 1] + [stored[|stored| - 1]];
      StoredMembers(stored[..|stored| - 1], accts, l);
    }
  }

  lemma AuthoritativeWithin(ctx: Context, accts: set<Acct>, part: set<Acct>)
    requires part <= accts
    ensures Authoritative(ctx, part) == Authoritative(ctx, accts) * part
  {
    forall x ensures x in Authoritative(ctx, part) <==> x in Authoritative(ctx, accts) && x in part {
      if x in Authoritative(ctx, part) {
        var l :| l in StoredIn(ctx.stored, part) && l.acct == x;
        StoredMembers(ctx.stored, part, l);
        StoredMembers(ctx.stored, accts, l);
      }
      if x in Authoritative(ctx, accts) && x in part {
        var l :| l in StoredIn(ctx.stored, accts) && l.acct == x;
        StoredMembers(ctx.stored, accts, l);
        StoredMembers(ctx.stored, part, l);
      }
    }
  }

  /** The accounts of a scope divided in two. */
  ghost predicate Divides(ctx: Context, db: Db, pid: int, scope: Scope, a: set<Acct>, b: set<Acct>) {
    && a !! b && ScopedAccounts(db, pid, scope) == a + b
    && ScopedAccounts(db, pid, Among(a)) == a && ScopedAccounts(db, pid, Among(b)) == b
    && ReplayAccounts(ctx, db, pid, Among(a)) !! ReplayAccounts(ctx, db, pid, Among(b))
    && ReplayAccounts(ctx, db, pid, scope)
       == ReplayAccounts(ctx, db, pid, Among(a)) + ReplayAccounts(ctx, db, pid, Among(b))
  }

  lemma TaxSplitDivides(ctx: Context, db: Db, pid: int, scope: Scope, taxable: set<Acct>)
    ensures var scopeIds := ScopedAccounts(db, pid, scope);
      Divides(ctx, db, pid, scope, taxable * scopeIds, scopeIds - taxable * scopeIds)
  {
    var scopeIds := ScopedAccounts(db, pid, scope);
    var a, b := taxable * scopeIds, scopeIds - taxable * scopeIds;
    assert scopeIds <= PortfolioAccounts(db, pid);
    assert PortfolioAccounts(db, pid) * a == a && PortfolioAccounts(db, pid) * b == b && a + b == scopeIds;
    AuthoritativeWithin(ctx, scopeIds, a);
    AuthoritativeWithin(ctx, scopeIds, b);
  }

  lemma ReplayedSplits(ctx: Context, db: Db, pid: int, scope: Scope, a: set<Acct>, b: set<Acct>)
    requires Divides(ctx, db, pid, scope, a, b)
    ensures multiset(ReplayedGains(ctx, db, pid, scope))
         == multiset(ReplayedGains(ctx, db, pid, Among(a))) + multiset(ReplayedGains(ctx, db, pid, Among(b)))
  {
    var ra, rb := ReplayAccounts(ctx, db, pid, Among(a)), ReplayAccounts(ctx, db, pid, Among(b));
    EntriesOf(db, pid, ra, rb);
    MergeSplitsOverAccounts(Entries(db, pid, ra + rb), ra, rb, "");
  }

  // ---------- A scope's lots as a bag ----------

  function StoredLots(ctx: Context, db: Db, accts: set<Acct>): seq<RealizedLot> {
    Sorting.Map(Convert(ctx, db, {}), FromStored(StoredIn(ctx.stored, accts)))
  }

  function ReplayedLots(ctx: Context, db: Db, resolving: set<Acct>, gains: seq<RealizedGain>): seq<RealizedLot> {
    Sorting.Map(Convert(ctx, db, resolving), FromReplay(gains))
  }

  /** A scope's lots are its stored lots and its replayed lots, each once. */
  lemma LotsAreBothSources(ctx: Context, db: Db, pid: int, scope: Scope)
    ensures multiset(RealizedLots(ctx, db, pid, scope))
         == multiset(StoredLots(ctx, db, ScopedAccounts(db, pid, scope)))
            + multiset(ReplayedLots(ctx, db, ReplayAccounts(ctx, db, pid, scope), ReplayedGains(ctx, db, pid, scope)))
  {
    var merged, f := Merge(ctx, db, pid, scope), Convert(ctx, db, ReplayAccounts(ctx, db, pid, scope));
    var stored := FromStored(StoredIn(ctx.stored, ScopedAccounts(db, pid, scope)));
    Sorting.SortPermutes(merged, ByClose());
    MapBag(f, Sorting.Sort(merged, ByClose()), merged);
    MapAppend(f, stored, FromReplay(ReplayedGains(ctx, db, pid, scope)));
    assert Sorting.Map(f, stored) == StoredLots(ctx, db, ScopedAccounts(db, pid, scope));
  }

  lemma StoredLotsSplit(ctx: Context, db: Db, a: set<Acct>, b: set<Acct>)
    requires a !! b
    ensures multiset(StoredLots(ctx, db, a + b)) == multiset(StoredLots(ctx, db, a)) + multiset(StoredLots(ctx, db, b))
  {
    StoredSplits(ctx.stored, a, b);
    MapBagSum(AsStored(), StoredIn(ctx.stored, a + b), StoredIn(ctx.stored, a), StoredIn(ctx.stored, b));
    MapBagSum(Convert(ctx, db, {}), FromStored(StoredIn(ctx.stored, a + b)), FromStored(StoredIn(ctx.stored, a)),
              FromStored(StoredIn(ctx.stored, b)));
  }

  lemma ReplayedLotsSplit(
    ctx: Context, db: Db, resolving: set<Acct>, s: seq<RealizedGain>, a: seq<RealizedGain>, b: seq<RealizedGain>)
    requires multiset(s) == multiset(a) + multiset(b)
    ensures multiset(ReplayedLots(ctx, db, resolving, s))
         == multiset(ReplayedLots(ctx, db, resolving, a)) + multiset(ReplayedLots(ctx, db, resolving, b))
  {
    MapBagSum(AsReplayed(), s, a, b);
    MapBagSum(Convert(ctx, db, resolving), FromReplay(s), FromReplay(a), FromReplay(b));
  }

  // ---------- Native amounts ----------

  function Natives(lots: seq<RealizedLot>): seq<RealizedGain> {
    Sorting.Map((l: RealizedLot) => l.gain, lots)
  }

  function PendingGain(): Pending -> RealizedGain {
    (p: Pending) => p.gain
  }

  function StoredGains(ctx: Context, accts: set<Acct>): seq<RealizedGain> {
    Sorting.Map(PendingGain(), FromStored(StoredIn(ctx.stored, accts)))
  }

  lemma NativesOf(ctx: Context, db: Db, pid: int, scope: Scope)
    ensures multiset(Natives(RealizedLots(ctx, db, pid, scope)))
         == multiset(StoredGains(ctx, ScopedAccounts(db, pid, scope))) + multiset(ReplayedGains(ctx, db, pid, scope))
  {
    var merged, replayed := Merge(ctx, db, pid, scope), ReplayedGains(ctx, db, pid, scope);
    var ordered := Sorting.Sort(merged, ByClose());
    assert Natives(RealizedLots(ctx, db, pid, scope)) == Sorting.Map(PendingGain(), ordered);
    Sorting.SortPermutes(merged, ByClose());
    MapBag(PendingGain(), ordered, merged);
    MapAppend(PendingGain(), FromStored(StoredIn(ctx.stored, ScopedAccounts(db, pid, scope))), FromReplay(replayed));
    assert Sorting.Map(PendingGain(), FromReplay(replayed)) == replayed;
  }

  lemma StoredGainsSplit(ctx: Context, a: set<Acct>, b: set<Acct>)
    requires a !! b
    ensures multiset(StoredGains(ctx, a + b)) == multiset(StoredGains(ctx, a)) + multiset(StoredGains(ctx, b))
  {
    StoredSplits(ctx.stored, a, b);
    MapBagSum(AsStored(), StoredIn(ctx.stored, a + b), StoredIn(ctx.stored, a), StoredIn(ctx.stored, b));
    MapBagSum(PendingGain(), FromStored(StoredIn(ctx.stored, a + b)), FromStored(StoredIn(ctx.stored, a)),
              FromStored(StoredIn(ctx.stored, b)));
  }

  lemma NativesSplit(ctx: Context, db: Db, pid: int, scope: Scope, a: set<Acct>, b: set<Acct>)
    requires Divides(ctx, db, pid, scope, a, b)
    ensures multiset(Natives(RealizedLots(ctx, db, pid, scope)))
         == multiset(Natives(RealizedLots(ctx, db, pid, Among(a))))
            + multiset(Natives(RealizedLots(ctx, db, pid, Among(b))))
  {
    ReplayedSplits(ctx, db, pid, scope, a, b);
    StoredGainsSplit(ctx, a, b);
    NativesOf(ctx, db, pid, scope);
    NativesOf(ctx, db, pid, Among(a));
    NativesOf(ctx, db, pid, Among(b));
  }

  lemma NativesAppend(x: seq<RealizedLot>, y: seq<RealizedLot>)
    ensures Natives(x + y) == Natives(x) + Natives(y)
  {
  }

  /** On native amounts the taxable and tax-advantaged reads union to the whole scope: no lot is
      lost and none is counted twice. */
  lemma TaxSplitConservesNativeLots(ctx: Context, db: Db, pid: int, scope: Scope, taxable: set<Acct>)
    ensures multiset(Natives(TaxSplit(ctx, db, pid, scope, taxable)))
         == multiset(Natives(RealizedLots(ctx, db, pid, scope)))
  {
    var scopeIds := ScopedAccounts(db, pid, scope);
    var a, b := taxable * scopeIds, scopeIds - taxable * scopeIds;
    TaxSplitDivides(ctx, db, pid, scope, taxable);
    NativesSplit(ctx, db, pid, scope, a, b);
    NativesAppend(RealizedLots(ctx, db, pid, Among(a)), RealizedLots(ctx, db, pid, Among(b)));
  }

  // ---------- Base amounts ----------

  /** Every replayed ticker of the part resolves to the currency it has in the whole scope. */
  ghost predicate ResolvesAlike(ctx: Context, db: Db, pid: int, scope: Scope, part: set<Acct>) {
    forall g | g in ReplayedGains(ctx, db, pid, Among(part)) ::
      Resolved(ctx, db, ReplayAccounts(ctx, db, pid, Among(part)), g.ticker)
      == Resolved(ctx, db, ReplayAccounts(ctx, db, pid, scope), g.ticker)
  }

  lemma AlikeGivesSameLots(ctx: Context, db: Db, pid: int, scope: Scope, part: set<Acct>)
    requires ResolvesAlike(ctx, db, pid, scope, part)
    ensures var gains := ReplayedGains(ctx, db, pid, Among(part));
      ReplayedLots(ctx, db, ReplayAccounts(ctx, db, pid, Among(part)), gains)
      == ReplayedLots(ctx, db, ReplayAccounts(ctx, db, pid, scope), gains)
  {
    var gains := ReplayedGains(ctx, db, pid, Among(part));
    forall i | 0 <= i < |gains|
      ensures ReplayedLots(ctx, db, ReplayAccounts(ctx, db, pid, Among(part)), gains)[i]
           == ReplayedLots(ctx, db, ReplayAccounts(ctx, db, pid, scope), gains)[i]
    {
      assert gains[i] in gains;
    }
  }

  /** Replayed lots keep each gain and give it the currency its ticker resolves to. */
  lemma LotAt(ctx: Context, db: Db, resolving: set<Acct>, gains: seq<RealizedGain>, i: nat)
    requires i < |gains|
    ensures var lots := ReplayedLots(ctx, db, resolving, gains);
      |lots| == |gains| && lots[i].gain == gains[i] && lots[i].currency == Resolved(ctx, db, resolving, gains[i].ticker)
  {
  }

  lemma LotOfBoth(here: seq<RealizedLot>, there: seq<RealizedLot>, i: nat) returns (j: nat)
    requires i < |here| && multiset(here) <= multiset(there)
    ensures j < |there| && there[j] == here[i]
  {
    assert here[i] in multiset(here);
    assert here[i] in multiset(there);
    j :| 0 <= j < |there| && there[j] == here[i];
  }

  lemma SameLotsGiveAlike(ctx: Context, db: Db, pid: int, scope: Scope, part: set<Acct>, whole: seq<RealizedGain>)
    requires var gains := ReplayedGains(ctx, db, pid, Among(part));
      multiset(ReplayedLots(ctx, db, ReplayAccounts(ctx, db, pid, Among(part)), gains))
        <= multiset(ReplayedLots(ctx, db, ReplayAccounts(ctx, db, pid, scope), whole))
    ensures ResolvesAlike(ctx, db, pid, scope, part)
  {
    var ids, ids' := ReplayAccounts(ctx, db, pid, Among(part)), ReplayAccounts(ctx, db, pid, scope);
    var gains := ReplayedGains(ctx, db, pid, Among(part));
    forall g | g in gains ensures Resolved(ctx, db, ids, g.ticker) == Resolved(ctx, db, ids', g.ticker) {
      var i :| 0 <= i < |gains| && gains[i] == g;
      LotAt(ctx, db, ids, gains, i);
      var j := LotOfBoth(ReplayedLots(ctx, db, ids, gains), ReplayedLots(ctx, db, ids', whole), i);
      LotAt(ctx, db, ids', whole, j);
    }
  }

  lemma Cancel<T>(s: multiset<T>, x: multiset<T>, y: multiset<T>)
    ensures s + x == s + y <==> x == y
  {
    assert s + x - s == x && s + y - s == y;
  }

  /** The replayed lots of a scope, in the currencies that scope resolves. */
  function OwnReplayed(ctx: Context, db: Db, pid: int, scope: Scope): seq<RealizedLot> {
    ReplayedLots(ctx, db, ReplayAccounts(ctx, db, pid, scope), ReplayedGains(ctx, db, pid, scope))
  }

  lemma SwapMiddle<T>(a: multiset<T>, b: multiset<T>, c: multiset<T>, d: multiset<T>)
    ensures (a + b) + (c + d) == (a + c) + (b + d)
  {
  }

  lemma SplitBag(ctx: Context, db: Db, pid: int, scope: Scope, a: set<Acct>, b: set<Acct>)
    requires Divides(ctx, db, pid, scope, a, b)
    ensures
      (multiset(RealizedLots(ctx, db, pid, Among(a)) + RealizedLots(ctx, db, pid, Among(b)))
          == multiset(RealizedLots(ctx, db, pid, scope)))
      <==>
      (multiset(OwnReplayed(ctx, db, pid, Among(a))) + multiset(OwnReplayed(ctx, db, pid, Among(b)))
       == multiset(OwnReplayed(ctx, db, pid, scope)))
  {
    LotsAreBothSources(ctx, db, pid, scope);
    LotsAreBothSources(ctx, db, pid, Among(a));
    LotsAreBothSources(ctx, db, pid, Among(b));
    StoredLotsSplit(ctx, db, a, b);
    var sa, sb := multiset(StoredLots(ctx, db, a)), multiset(StoredLots(ctx, db, b));
    var ra, rb := multiset(OwnReplayed(ctx, db, pid, Among(a))), multiset(OwnReplayed(ctx, db, pid, Among(b)));
    SwapMiddle(sa, ra, sb, rb);
    Cancel(sa + sb, ra + rb, multiset(OwnReplayed(ctx, db, pid, scope)));
  }

  /** With currencies and base amounts included, the split unions to the whole scope exactly when
      every replayed ticker resolves to one currency in its part and in the whole. */
  lemma TaxSplitConservesBaseLotsExactly(ctx: Context, db: Db, pid: int, scope: Scope, taxable: set<Acct>)
    ensures var scopeIds := ScopedAccounts(db, pid, scope);
      multiset(TaxSplit(ctx, db, pid, scope, taxable)) == multiset(RealizedLots(ctx, db, pid, scope))
      <==> ResolvesAlike(ctx, db, pid, scope, taxable * scopeIds)
           && ResolvesAlike(ctx, db, pid, scope, scopeIds - taxable * scopeIds)
  {
    var scopeIds := ScopedAccounts(db, pid, scope);
    var a, b := taxable * scopeIds, scopeIds - taxable * scopeIds;
    TaxSplitDivides(ctx, db, pid, scope, taxable);
    SplitBag(ctx, db, pid, scope, a, b);
    ReplayedSplits(ctx, db, pid, scope, a, b);
    var whole := ReplayedGains(ctx, db, pid, scope);
    ReplayedLotsSplit(ctx, db, ReplayAccounts(ctx, db, pid, scope), whole,
                      ReplayedGains(ctx, db, pid, Among(a)), ReplayedGains(ctx, db, pid, Among(b)));
    if ResolvesAlike(ctx, db, pid, scope, a) && ResolvesAlike(ctx, db, pid, scope, b) {
      AlikeGivesSameLots(ctx, db, pid, scope, a);
      AlikeGivesSameLots(ctx, db, pid, scope, b);
    }
    if multiset(TaxSplit(ctx, db, pid, scope, taxable)) == multiset(RealizedLots(ctx, db, pid, scope)) {
      SameLotsGiveAlike(ctx, db, pid, scope, a, whole);
      SameLotsGiveAlike(ctx, db, pid, scope, b, whole);
    }
  }

  // ---------- A check a caller can make ----------

  predicate LinkedIn(links: seq<Link>, accts: set<Acct>, t: Ticker) {
    exists l :: l in links && l.acct in accts && l.symbol == t
  }

  ghost predicate OneCurrency(links: seq<Link>, accts: set<Acct>, t: Ticker, currency: string) {
    forall l | l in links && l.acct in accts && l.symbol == t :: OrUsd(l.currency) == currency
  }

  lemma {:induction false} DefaultFromRows(known: map<string, string>, rows: seq<Link>, t: string)
    ensures t in SetDefaults(known, rows) <==> t in known || exists l :: l in rows && l.symbol == t
    ensures t in known ==> SetDefaults(known, rows)[t] == known[t]
    ensures t !in known && t in SetDefaults(known, rows) ==>
      exists l :: l in rows && l.symbol == t && OrUsd(l.currency) == SetDefaults(known, rows)[t]
    decreases |rows|
  {
    if |rows| > 0 {
      var l := rows[0];
      assert l in rows && forall x | x in rows[1..] :: x in rows;
      assert forall x | x in rows :: x == l || x in rows[1..];
      DefaultFromRows(if l.symbol in known then known else known[l.symbol := OrUsd(l.currency)], rows[1..], t);
    }
  }

  /** When the accounts' links give a ticker one currency, that is what it resolves to. */
  lemma OneCurrencyResolves(ctx: Context, db: Db, accts: set<Acct>, t: Ticker, currency: string)
    requires OneCurrency(PositionLinks(db.positions), accts, t, currency)
    requires OneCurrency(TxnLinks(db.txns), accts, t, currency)
    requires LinkedIn(PositionLinks(db.positions), accts, t) || LinkedIn(TxnLinks(db.txns), accts, t)
    ensures Resolved(ctx, db, accts, t) == currency
  {
    var ps, ts := Query(PositionLinks(db.positions), {t}, accts, ctx.le), Query(TxnLinks(db.txns), {t}, accts, ctx.le);
    forall l ensures l in ps <==> l in PositionLinks(db.positions) && l.symbol == t && l.acct in accts {
      LinkCurrency.QueryMembers(PositionLinks(db.positions), {t}, accts, ctx.le, l);
    }
    forall l ensures l in ts <==> l in TxnLinks(db.txns) && l.symbol == t && l.acct in accts {
      LinkCurrency.QueryMembers(TxnLinks(db.txns), {t}, accts, ctx.le, l);
    }
    DefaultFromRows(map[], ps, t);
    DefaultFromRows(SetDefaults(map[], ps), ts, t);
  }

  // ---------- Stored-lot accounts are never replayed ----------

  /** Deleting every transaction of the accounts with stored lots changes no realized lot. */
  lemma StoredAccountsAreNeverReplayed(ctx: Context, db: Db, pid: int, scope: Scope)
    requires Sorting.TotalPreorder(ctx.le)
    ensures var stored := Authoritative(ctx, ScopedAccounts(db, pid, scope));
      RealizedLots(ctx, db.(txns := TxnsWithout(db.txns, stored)), pid, scope) == RealizedLots(ctx, db, pid, scope)
  {
    var gone := Authoritative(ctx, ScopedAccounts(db, pid, scope));
    var db' := db.(txns := TxnsWithout(db.txns, gone));
    var ids := ReplayAccounts(ctx, db, pid, scope);
    assert ReplayAccounts(ctx, db', pid, scope) == ids;
    EntriesWithout(db.txns, gone, PortfolioAccounts(db, pid) * ids);
    forall t ensures Resolved(ctx, db', ids, t) == Resolved(ctx, db, ids, t) {
      LinksWithout(db.txns, gone, {t}, ids);
    }
    var ordered := Sorting.Sort(Merge(ctx, db, pid, scope), ByClose());
    assert Merge(ctx, db', pid, scope) == Merge(ctx, db, pid, scope);
    assert Sorting.Map(Convert(ctx, db', ids), ordered) == Sorting.Map(Convert(ctx, db, ids), ordered);
  }
}
