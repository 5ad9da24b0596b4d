/** One ticker held in two currencies: the tax split and the whole scope convert a lot
    differently, although the native amounts agree. */
module RealizedCounterexample {
  import opened Wrappers
  import opened FifoLedger
  import opened LedgerReplay
  import opened PortfolioLedger
  import opened PortfolioData
  import opened HoldingsReaders
  import opened Realized
  import opened RealizedSplit
  import Sorting
  import Text

  const BOUGHT := Txn(1, Buy, "", 1.0, 1.0, 1.0, 0.0)
  const SOLD := Txn(2, Sell, "", 1.0, 2.0, 2.0, 0.0)

  /** Account 1 is linked to the CAD listing of X, account 2 to the USD one. */
  const FOREIGN := TxnRow(1, Some("X"), "CAD", BOUGHT)
  const OPENING := TxnRow(2, Some("X"), "USD", BOUGHT)
  const CLOSING := TxnRow(2, Some("X"), "USD", SOLD)

  const TWO_LISTINGS := Db([Account(1, 0, "csv", None), Account(2, 0, "csv", None)], [FOREIGN, OPENING, CLOSING], [])

  /** CAD sorts before everything else. */
  const BY_CODE: Order := (a: Link, b: Link) => a.currency == "CAD" || b.currency != "CAD"

  const CONTEXT := Context([], map[], "USD", map[("USD", 2) := 1.0, ("CAD", 2) := 0.7], BY_CODE)

  lemma TheirLinks()
    ensures TxnLinks(TWO_LISTINGS.txns) == [Link(1, "X", "CAD"), Link(2, "X", "USD"), Link(2, "X", "USD")]
  {
    var txns := TWO_LISTINGS.txns;
    assert txns[1..] == [OPENING, CLOSING] && txns[1..][1..] == [CLOSING] && txns[1..][1..][1..] == [];
    assert TxnLinks(txns[1..][1..]) == [Link(2, "X", "USD")];
    assert TxnLinks(txns[1..]) == [Link(2, "X", "USD"), Link(2, "X", "USD")];
  }

  lemma TheirAccounts()
    ensures PortfolioAccounts(TWO_LISTINGS, 0) == {1, 2}
    ensures ReplayAccounts(CONTEXT, TWO_LISTINGS, 0, Whole) == {1, 2}
    ensures ReplayAccounts(CONTEXT, TWO_LISTINGS, 0, Among({2})) == {2}
  {
    var accounts := TWO_LISTINGS.accounts;
    assert accounts[0] in accounts && accounts[1] in accounts;
    assert PortfolioAccounts(TWO_LISTINGS, 0) == {1, 2};
    assert StoredIn(CONTEXT.stored, {1, 2}) == [] && StoredIn(CONTEXT.stored, {2}) == [];
    assert {1, 2} * {2} == {2};
  }

  lemma WholeScopeSaysCad()
    ensures Resolved(CONTEXT, TWO_LISTINGS, {1, 2}, "X") == "CAD"
  {
    TheirLinks();
    var cad, usd := Link(1, "X", "CAD"), Link(2, "X", "USD");
    var links, keep := [cad, usd, usd], Asked({"X"}, {1, 2});
    assert links[1..] == [usd, usd] && links[1..][1..] == [usd] && links[1..][1..][1..] == [];
    assert Sorting.Filter(links[1..][1..], keep) == [usd];
    assert Sorting.Filter(links[1..], keep) == [usd, usd];
    assert Sorting.Filter(links, keep) == links;
    var rest := Sorting.Sort(links[1..], BY_CODE);
    Sorting.SortPermutes(links[1..], BY_CODE);
    Sorting.InMultiset(rest, links[1..], 0);
    assert rest[0] == usd && Sorting.Sort(links, BY_CODE) == [cad] + rest;
    assert Query(PositionLinks(TWO_LISTINGS.positions), {"X"}, {1, 2}, BY_CODE) == [];
    DefaultFromRows(map["X" := "CAD"], rest, "X");
    assert ([cad] + rest)[1..] == rest;
  }

  lemma SecondAccountSaysUsd()
    ensures Resolved(CONTEXT, TWO_LISTINGS, {2}, "X") == "USD"
  {
    TheirLinks();
    var links := TxnLinks(TWO_LISTINGS.txns);
    assert PositionLinks(TWO_LISTINGS.positions) == [];
    assert links[1] in links;
    OneCurrencyResolves(CONTEXT, TWO_LISTINGS, {2}, "X", "USD");
  }

  const K := Key(2, "X")
  const BUY_X := Txn(1, Buy, "X", 1.0, 1.0, 1.0, 0.0)
  const SELL_X := Txn(2, Sell, "X", 1.0, 2.0, 2.0, 0.0)

  lemma AllTheirEntries()
    ensures AllEntries(TWO_LISTINGS.txns) == [ToEntry(FOREIGN), Entry(2, BUY_X), Entry(2, SELL_X)]
  {
    assert Text.Upper("X") == "X";
    var txns := TWO_LISTINGS.txns;
    assert txns[..2] == [FOREIGN, OPENING] && txns[..2][..1] == [FOREIGN] && txns[..2][..1][..0] == [];
    assert ToEntry(OPENING) == Entry(2, BUY_X) && ToEntry(CLOSING) == Entry(2, SELL_X);
    assert AllEntries(txns[..2][..1]) == [ToEntry(FOREIGN)];
    assert AllEntries(txns[..2]) == [ToEntry(FOREIGN), Entry(2, BUY_X)];
  }

  lemma TheirEntries()
    ensures Entries(TWO_LISTINGS, 0, {2}) == [Entry(2, BUY_X), Entry(2, SELL_X)]
  {
    TheirAccounts();
    AllTheirEntries();
    assert PortfolioAccounts(TWO_LISTINGS, 0) * {2} == {2};
    var first, second, third := ToEntry(FOREIGN), Entry(2, BUY_X), Entry(2, SELL_X);
    var all := [first, second, third];
    assert all[..2] == [first, second] && all[..2][..1] == [first] && all[..2][..1][..0] == [];
    assert Kept(all[..2][..1], In({2})) == [];
    assert Kept(all[..2], In({2})) == [second];
  }

  lemma TheReplay()
    ensures Built([BUY_X, SELL_X]).Ok?
         && Built([BUY_X, SELL_X]).value.realized == [RealizedGain("X", 1, 2, 1.0, 2.0, 1.0)]
  {
    var txns := [BUY_X, SELL_X];
    assert txns[1..] == [SELL_X] && [SELL_X][1..] == [];
    assert Sorting.Sort([SELL_X], ByWhen()) == [SELL_X];
    assert Sorting.Sort(txns, ByWhen()) == txns;
    var lot := Lot("X", 1, 1.0, 1.0);
    var held := Apply(EMPTY, BUY_X).value;
    assert LotsOf(held, "X") == [lot];
    assert [lot][1..] == [];
    assert Shares([lot]) == 1.0;
    assert Relief([], 0.0, 2, 2.0).gains == [];
    assert Relief([lot], 1.0, 2, 2.0).gains == [RealizedGain("X", 1, 2, 1.0, 2.0, 1.0)];
    assert Apply(held, SELL_X).Ok?;
    assert Replay(held, [SELL_X]) == Apply(held, SELL_X);
  }

  lemma TheGain()
    ensures RealizedGain("X", 1, 2, 1.0, 2.0, 1.0) in ReplayedGains(CONTEXT, TWO_LISTINGS, 0, Among({2}))
  {
    TheirAccounts();
    TheirEntries();
    var txns := Entries(TWO_LISTINGS, 0, {2});
    assert txns[..1] == [Entry(2, BUY_X)] && txns[..1][..0] == [];
    assert Keys(txns[..1]) == [K];
    assert Keys(txns) == [K];
    assert Group(txns[..1], K) == [BUY_X];
    assert Group(txns, K) == [BUY_X, SELL_X];
    TheReplay();
    MergeIsTheSumOfItsGroups(txns, "X");
    GatheredOne(txns, K, "X");
    var realized := MergedLedger(txns).books.realized;
    assert RealizedGain("X", 1, 2, 1.0, 2.0, 1.0) in multiset(realized);
  }

  /** The tax split reports this lot in USD, the whole scope in CAD. */
  lemma TwoCurrenciesBreakTheBaseSplit()
    ensures multiset(TaxSplit(CONTEXT, TWO_LISTINGS, 0, Whole, {1}))
         != multiset(RealizedLots(CONTEXT, TWO_LISTINGS, 0, Whole))
    ensures multiset(Natives(TaxSplit(CONTEXT, TWO_LISTINGS, 0, Whole, {1})))
         == multiset(Natives(RealizedLots(CONTEXT, TWO_LISTINGS, 0, Whole)))
  {
    TheirAccounts();
    WholeScopeSaysCad();
    SecondAccountSaysUsd();
    TheGain();
    assert {1} * {1, 2} == {1} && {1, 2} - {1} == {2};
    TaxSplitConservesBaseLotsExactly(CONTEXT, TWO_LISTINGS, 0, Whole, {1});
    TaxSplitConservesNativeLots(CONTEXT, TWO_LISTINGS, 0, Whole, {1});
  }
}
