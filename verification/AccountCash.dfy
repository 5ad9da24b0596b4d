/** Cash per account from exactly one source: `_cash_by_account` and `_ledger_cash_by_account`
    in api/services/analytics.py. */
module AccountCash {
  import opened Wrappers
  import opened FifoLedger
  import opened LedgerReplay
  import opened PortfolioLedger
  import opened PortfolioData

  function GroupCash(group: seq<Txn>): real {
    match Built(group)
    case Ok(b) => b.cash
    case Err(_) => 0.0
  }

  /** Cash of account `a` over its groups among `ks`; a group that cannot be replayed adds none. */
  function CashOver(txns: seq<Entry>, ks: seq<Key>, a: Acct): real {
    if |ks| == 0 then 0.0
    else
      var most, last := CashOver(txns, ks[..|ks| - 1], a), ks[|ks| - 1];
      if last.acct == a then most + GroupCash(Group(txns, last)) else most
  }

  function KeysFor(ks: seq<Key>, a: Acct): seq<Key> {
    if |ks| == 0 then []
    else
      var most, last := KeysFor(ks[..|ks| - 1], a), ks[|ks| - 1];
      if last.acct == a then most + [last] else most
  }

  lemma {:induction false} KeysForMembers(ks: seq<Key>, a: Acct, k: Key)
    ensures k in KeysFor(ks, a) <==> k in ks && k.acct == a
    decreases |ks|
  {
    if |ks| > 0 {
      assert ks == ks[..|ks| - 1] + [ks[|ks| - 1]];
      KeysForMembers(ks[..|ks| - 1], a, k);
    }
  }

  lemma {:induction false} KeysOfOneAccount(txns: seq<Entry>, a: Acct)
    ensures Keys(Kept(txns, In({a}))) == KeysFor(Keys(txns), a)
    decreases |txns|
  {
    if |txns| > 0 {
      var most, last := txns[..|txns| - 1], txns[|txns| - 1];
      var kept := Kept(most, In({a}));
      KeysOfOneAccount(most, a);
      assert (kept + [last])[..|kept|] == kept;
      KeysForMembers(Keys(most), a, KeyOf(last));
      assert (Keys(most) + [KeyOf(last)])[..|Keys(most)|] == Keys(most);
    }
  }

  function CashOf(txns: seq<Entry>, ks: seq<Key>): real {
    if |ks| == 0 then 0.0 else CashOf(txns, ks[..|ks| - 1]) + GroupCash(Group(txns, ks[|ks| - 1]))
  }

  lemma {:induction false} CashOfIsGathered(txns: seq<Entry>, ks: seq<Key>)
    ensures CashOf(txns, ks) == Gathered(txns, ks, "").cash
    decreases |ks|
  {
    if |ks| > 0 {
      CashOfIsGathered(txns, ks[..|ks| - 1]);
    }
  }

  lemma CashOfLast(txns: seq<Entry>, most: seq<Key>, last: Key)
    ensures CashOf(txns, most + [last]) == CashOf(txns, most) + GroupCash(Group(txns, last))
  {
    assert (most + [last])[..|most|] == most;
  }

  lemma {:induction false} CashOverIsCashOf(txns: seq<Entry>, ks: seq<Key>, a: Acct)
    ensures CashOver(txns, ks, a) == CashOf(txns, KeysFor(ks, a))
    decreases |ks|
  {
    if |ks| > 0 {
      var most, last := ks[..|ks| - 1], ks[|ks| - 1];
      CashOverIsCashOf(txns, most, a);
      CashOfLast(txns, KeysFor(most, a), last);
    }
  }

  /** The per-account total is the cash of the account's own merged ledger. */
  lemma CashIsOwnLedgersCash(txns: seq<Entry>, a: Acct)
    ensures CashOver(txns, Keys(txns), a) == MergedLedger(Kept(txns, In({a}))).books.cash
  {
    KeysOfOneAccount(txns, a);
    CashOverIsCashOf(txns, Keys(txns), a);
    CashOfIsGathered(txns, KeysFor(Keys(txns), a));
    SameWithin(txns, {a}, "");
    MergeIsTheSumOfItsGroups(Kept(txns, In({a})), "");
  }

  method LedgerCashByAccount(db: Db, pid: int, accts: set<Acct>) returns (out: map<Acct, real>)
    ensures out.Keys == accts
    ensures forall a | a in accts :: out[a] == MergedLedger(Entries(db, pid, {a})).books.cash
  {
    out := map a | a in accts :: 0.0;
    var txns := Entries(db, pid, accts);
    var order, groups := GroupByKey(txns);
    for i := 0 to |order|
      invariant out.Keys == accts && forall a | a in accts :: out[a] == CashOver(txns, order[..i], a)
    {
      var k := order[i];
      assert order[..i + 1][..i] == order[..i];
      KeyHasOwner(db, pid, accts, k);
      var ledger, failure := BuildLedger(groups[k]);
      if failure.Some? {
        continue;
      }
      out := out[k.acct := out[k.acct] + ledger.cash];
    }
    assert order[..|order|] == order;
    forall a | a in accts ensures out[a] == MergedLedger(Entries(db, pid, {a})).books.cash {
      CashIsOwnLedgersCash(txns, a);
      EntriesNarrow(db, pid, accts, {a});
      assert accts * {a} == {a};
    }
  }

  lemma KeyHasOwner(db: Db, pid: int, accts: set<Acct>, k: Key)
    requires k in Keys(Entries(db, pid, accts))
    ensures k.acct in accts
  {
    var txns := Entries(db, pid, accts);
    KeysAreTheGroups(txns);
    GroupOwner(txns, k);
    var e :| e in txns && KeyOf(e) == k;
    KeptMembers(AllEntries(db.txns), In(PortfolioAccounts(db, pid) * accts), e);
  }

  /** The balance the connector reported for an account. */
  function Reported(accounts: seq<Account>, a: Acct): Option<real> {
    if |accounts| == 0 then None
    else if accounts[|accounts| - 1].id == a then accounts[|accounts| - 1].cash
    else Reported(accounts[..|accounts| - 1], a)
  }

  method ReportedCash(accounts: seq<Account>, accts: set<Acct>) returns (out: map<Acct, Option<real>>)
    requires forall a | a in accts :: exists row :: row in accounts && row.id == a
    ensures out.Keys == accts && forall a | a in accts :: out[a] == Reported(accounts, a)
  {
    out := map[];
    for i := 0 to |accounts|
      invariant out.Keys <= accts && forall k | 0 <= k < i && accounts[k].id in accts :: accounts[k].id in out
      invariant forall a | a in out :: out[a] == Reported(accounts[..i], a)
    {
      assert accounts[..i + 1][..i] == accounts[..i];
      if accounts[i].id in accts {
        out := out[accounts[i].id := accounts[i].cash];
      }
    }
    assert accounts[..|accounts|] == accounts;
    forall a | a in accts ensures a in out {
      var row :| row in accounts && row.id == a;
      var k :| 0 <= k < |accounts| && accounts[k] == row;
      assert accounts[k].id in out;
    }
    assert out.Keys == accts;
  }

  function OwnCash(db: Db, pid: int, a: Acct): Option<real> {
    if a in SnapshotSourced(db, pid) then Reported(db.accounts, a)
    else Some(MergedLedger(Entries(db, pid, {a})).books.cash)
  }

  /** Each account in scope reports the custodian's balance or its ledger's cash, never both:
      the custodian's exactly when the account is snapshot-sourced. */
  method CashByAccount(db: Db, pid: int, scope: Scope) returns (out: map<Acct, Option<real>>)
    ensures out.Keys == ScopedAccounts(db, pid, scope)
    ensures forall a | a in out :: out[a] == OwnCash(db, pid, a)
  {
    var scopeIds := ScopedAccounts(db, pid, scope);
    if scopeIds == {} {
      return map[];
    }
    var snapshotIds := SnapshotSourced(db, pid) * scopeIds;
    var ledgerIds := scopeIds - snapshotIds;
    out := ReportedCash(db.accounts, snapshotIds);
    var fromLedger := LedgerCashByAccount(db, pid, ledgerIds);
    out := out + map a | a in fromLedger :: Some(fromLedger[a]);
  }
}
