/** What an account's cash is, on the stored rows: the balance its custodian reports, or what its
    transactions moved; `_cash_by_account` in api/services/analytics.py. */
module AccountCashMeaning {
  import opened Wrappers
  import opened Sums
  import opened FifoLedger
  import opened LedgerReplay
  import opened LedgerMeaning
  import opened PortfolioLedger
  import opened PortfolioData
  import opened AccountCash
  import Sorting

  // ---------- One group ----------

  lemma {:induction false} InsertTotal<T>(x: T, s: seq<T>, le: (T, T) -> bool, f: T -> real)
    ensures TotalBy(Sorting.Insert(x, s, le), f) == f(x) + TotalBy(s, f)
  {
    if |s| == 0 || le(x, s[0]) {
      assert ([x] + s)[1..] == s;
    } else {
      InsertTotal(x, s[1..], le, f);
      assert ([s[0]] + Sorting.Insert(x, s[1..], le))[1..] == Sorting.Insert(x, s[1..], le);
    }
  }

  lemma {:induction false} SortTotal<T>(s: seq<T>, le: (T, T) -> bool, f: T -> real)
    ensures TotalBy(Sorting.Sort(s, le), f) == TotalBy(s, f)
  {
    if |s| > 0 {
      SortTotal(s[1..], le, f);
      InsertTotal(s[0], Sorting.Sort(s[1..], le), le, f);
    }
  }

  lemma GroupCashMoved(group: seq<Txn>)
    ensures GroupCash(group) == if Built(group).Ok? then TotalBy(group, CashMoved()) else 0.0
  {
    if Built(group).Ok? {
      CashIsWhatMoved(EMPTY, Sorting.Sort(group, ByWhen()), Built(group).value);
      SortTotal(group, ByWhen(), CashMoved());
    }
  }

  // ---------- All groups of a list ----------

  /** The cash an entry moves, if its group is counted. */
  function Counted(counts: Key -> bool): Entry -> real {
    (e: Entry) => if counts(KeyOf(e)) then CashMoved()(e.txn) else 0.0
  }

  function KeyCash(txns: seq<Entry>, counts: Key -> bool, k: Key): real {
    if counts(k) then TotalBy(Group(txns, k), CashMoved()) else 0.0
  }

  function OverKeys(txns: seq<Entry>, counts: Key -> bool, ks: seq<Key>): real {
    if |ks| == 0 then 0.0 else KeyCash(txns, counts, ks[0]) + OverKeys(txns, counts, ks[1..])
  }

  lemma KeyCashNext(most: seq<Entry>, last: Entry, counts: Key -> bool, k: Key)
    ensures KeyCash(most + [last], counts, k)
         == KeyCash(most, counts, k) + if k == KeyOf(last) then Counted(counts)(last) else 0.0
  {
    assert (most + [last])[..|most|] == most;
    TotalByLast(Group(most, k), last.txn, CashMoved());
  }

  lemma {:induction false} OverKeysNext(most: seq<Entry>, last: Entry, counts: Key -> bool, ks: seq<Key>)
    requires NoRepeats(ks)
    ensures OverKeys(most + [last], counts, ks)
         == OverKeys(most, counts, ks) + if KeyOf(last) in ks then Counted(counts)(last) else 0.0
  {
    if |ks| > 0 {
      KeyCashNext(most, last, counts, ks[0]);
      OverKeysNext(most, last, counts, ks[1..]);
      assert forall k | k in ks[1..] :: k != ks[0];
      assert KeyOf(last) in ks <==> KeyOf(last) == ks[0] || KeyOf(last) in ks[1..];
    }
  }

  lemma {:induction false} OverKeysOfNothing(counts: Key -> bool, ks: seq<Key>)
    ensures OverKeys([], counts, ks) == 0.0
  {
    if |ks| > 0 {
      OverKeysOfNothing(counts, ks[1..]);
    }
  }

  /** Grouping neither loses nor repeats an entry. */
  lemma {:induction false} GroupsAddUp(txns: seq<Entry>, counts: Key -> bool, ks: seq<Key>)
    requires NoRepeats(ks) && forall e | e in txns :: KeyOf(e) in ks
    ensures OverKeys(txns, counts, ks) == TotalBy(txns, Counted(counts))
    decreases |txns|
  {
    if |txns| == 0 {
      OverKeysOfNothing(counts, ks);
    } else {
      var most, last := txns[..|txns| - 1], txns[|txns| - 1];
      assert txns == most + [last] && last in txns && forall e | e in most :: e in txns;
      GroupsAddUp(most, counts, ks);
      OverKeysNext(most, last, counts, ks);
      TotalByLast(most, last, Counted(counts));
    }
  }

  /** The groups that can be replayed. */
  function Replayable(txns: seq<Entry>): Key -> bool {
    (k: Key) => Built(Group(txns, k)).Ok?
  }

  lemma {:induction false} CashOfIsOverKeys(txns: seq<Entry>, ks: seq<Key>)
    ensures CashOf(txns, ks) == OverKeys(txns, Replayable(txns), ks)
    decreases |ks|
  {
    if |ks| > 0 {
      var most, last := ks[..|ks| - 1], ks[|ks| - 1];
      assert ks == most + [last];
      CashOfIsOverKeys(txns, most);
      GroupCashMoved(Group(txns, last));
      OverKeysLast(txns, Replayable(txns), most, last);
    }
  }

  lemma {:induction false} OverKeysLast(txns: seq<Entry>, counts: Key -> bool, most: seq<Key>, last: Key)
    ensures OverKeys(txns, counts, most + [last]) == OverKeys(txns, counts, most) + KeyCash(txns, counts, last)
  {
    if |most| == 0 {
      assert most + [last] == [last] && [last][1..] == [];
    } else {
      assert (most + [last])[1..] == most[1..] + [last];
      OverKeysLast(txns, counts, most[1..], last);
    }
  }

  lemma {:induction false} KeysOfEntries(txns: seq<Entry>, e: Entry)
    requires e in txns
    ensures KeyOf(e) in Keys(txns)
    decreases |txns|
  {
    var most, last := txns[..|txns| - 1], txns[|txns| - 1];
    assert txns == most + [last];
    if e in most {
      KeysOfEntries(most, e);
    }
  }

  /** A merged ledger's cash is what its transactions move, those of unreplayable groups apart. */
  lemma MergedCashIsWhatMoved(txns: seq<Entry>)
    ensures MergedLedger(txns).books.cash == TotalBy(txns, Counted(Replayable(txns)))
  {
    MergeIsTheSumOfItsGroups(txns, "");
    CashOfIsGathered(txns, Keys(txns));
    CashOfIsOverKeys(txns, Keys(txns));
    KeysAreTheGroups(txns);
    forall e | e in txns ensures KeyOf(e) in Keys(txns) {
      KeysOfEntries(txns, e);
    }
    GroupsAddUp(txns, Replayable(txns), Keys(txns));
  }

  // ---------- An account's cash ----------

  lemma {:induction false} ReportedIsTheRows(accounts: seq<Account>, row: Account)
    requires row in accounts && forall other | other in accounts && other.id == row.id :: other == row
    ensures Reported(accounts, row.id) == row.cash
    decreases |accounts|
  {
    var most, last := accounts[..|accounts| - 1], accounts[|accounts| - 1];
    assert accounts == most + [last] && last in accounts && forall other | other in most :: other in accounts;
    if last.id != row.id {
      ReportedIsTheRows(most, row);
    }
  }

  /** An account whose broker reports snapshots, or that has positions, has the balance on its row; any
      other has what its transactions moved, those of unreplayable groups apart. */
  lemma CashOfAccount(db: Db, pid: int, row: Account)
    requires row in db.accounts && row.portfolio == pid
    requires forall other | other in db.accounts && other.id == row.id :: other == row
    ensures
      var txns := Entries(db, pid, {row.id});
      var byBroker := row.broker == "ibkr_flex" || row.broker == "snaptrade" || row.broker == "reference";
      var byPositions := exists p :: p in db.positions && p.acct == row.id;
      OwnCash(db, pid, row.id)
      == if byBroker || byPositions then row.cash else Some(TotalBy(txns, Counted(Replayable(txns))))
  {
    SnapshotSourcedExactly(db, pid, row.id);
    ReportedIsTheRows(db.accounts, row);
    MergedCashIsWhatMoved(Entries(db, pid, {row.id}));
  }
}
