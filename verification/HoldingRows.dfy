/** The holdings cache hands out copies: `holdings` and the callers that stamp its rows
    (`valued_holdings`, `valued_holdings_by_account_flat`) in api/services/analytics.py. */
module HoldingRows {
  import opened Wrappers
  import opened Holdings
  import opened Valuation

  type CacheKey = string

  /** A row's whole content. */
  datatype Content = Content(
    native: Holding, fields: Fields, securityType: string, userLabel: Option<string>, accountLabel: Option<string>)

  function Pristine(h: Holding): Content {
    Content(h, UNVALUED, "other", None, None)
  }

  ghost function ContentOf(r: Row): Content
    reads r
  {
    Content(r.native, r.State(), r.securityType, r.userLabel, r.accountLabel)
  }

  function PristineRows(hs: seq<Holding>): seq<Content> {
    seq(|hs|, i requires 0 <= i < |hs| => Pristine(hs[i]))
  }

  /** Rows holding exactly the given contents. */
  ghost predicate Hold(rows: seq<Row>, contents: seq<Content>)
    reads rows
  {
    |rows| == |contents| && forall i | 0 <= i < |rows| :: ContentOf(rows[i]) == contents[i]
  }

  ghost predicate Distinct(rows: seq<Row>) {
    forall i, j | 0 <= i < j < |rows| :: rows[i] != rows[j]
  }

  /** `dataclasses.replace` with no change: a new row with the same content. */
  method Copy(r: Row) returns (c: Row)
    ensures fresh(c) && ContentOf(c) == ContentOf(r)
  {
    c := new Row(r.native);
    c.fxRate, c.costBasisBase, c.lastPrice, c.lastPriceDay, c.fromClose :=
        r.fxRate, r.costBasisBase, r.lastPrice, r.lastPriceDay, r.fromClose;
    c.valueLocal, c.value, c.gain, c.gainPct := r.valueLocal, r.value, r.gain, r.gainPct;
    c.securityType, c.userLabel, c.accountLabel := r.securityType, r.userLabel, r.accountLabel;
  }

  method CopyAll(rows: seq<Row>, ghost contents: seq<Content>) returns (copies: seq<Row>)
    requires Hold(rows, contents)
    ensures Hold(copies, contents) && Distinct(copies) && forall c | c in copies :: fresh(c)
  {
    copies := [];
    for i := 0 to |rows|
      invariant |copies| == i && Distinct(copies) && forall c | c in copies :: fresh(c)
      invariant forall k | 0 <= k < i :: ContentOf(copies[k]) == contents[k]
      invariant Hold(rows, contents)
    {
      var c := Copy(rows[i]);
      copies := copies + [c];
    }
  }

  method NewRows(hs: seq<Holding>) returns (rows: seq<Row>)
    ensures Hold(rows, PristineRows(hs)) && forall r | r in rows :: fresh(r)
  {
    rows := [];
    for i := 0 to |hs|
      invariant |rows| == i && forall r | r in rows :: fresh(r)
      invariant forall k | 0 <= k < i :: ContentOf(rows[k]) == Pristine(hs[k])
    {
      var r := new Row(hs[i]);
      rows := rows + [r];
    }
  }

  // ---------- The cache ----------

  class HoldingsCache {
    /** What the uncached reader computes under a key: the key carries the content fingerprint. */
    const compute: CacheKey -> seq<Holding>
    var entries: map<CacheKey, seq<Row>>
    ghost var owned: set<Row>

    constructor (compute: CacheKey -> seq<Holding>)
      ensures this.compute == compute && Valid() && owned == {}
    {
      this.compute := compute;
      entries, owned := map[], {};
    }

    /** Every cached row is the cache's own and still as computed. */
    ghost predicate Valid()
      reads this, owned
    {
      && (forall k | k in entries :: forall r | r in entries[k] :: r in owned)
      && forall k | k in entries :: Hold(entries[k], PristineRows(compute(k)))
    }

    method Fill(key: CacheKey)
      requires Valid()
      modifies this
      ensures Valid() && key in entries
      ensures fresh(owned - old(owned)) && old(owned) <= owned
    {
      if key !in entries {
        var computed := NewRows(compute(key));
        entries := entries[key := computed];
        owned := owned + set r | r in computed;
      }
    }

    method ReadRows(key: CacheKey) returns (rows: seq<Row>)
      requires Valid()
      modifies this
      ensures Valid() && Hold(rows, PristineRows(compute(key)))
      ensures Distinct(rows) && forall r | r in rows :: fresh(r) && r !in owned
      ensures fresh(owned - old(owned)) && old(owned) <= owned
    {
      Fill(key);
      ghost var held := owned;
      rows := CopyAll(entries[key], PristineRows(compute(key)));
      assert forall r | r in rows :: r !in held;
    }
  }

  // ---------- Callers that stamp the rows ----------

  datatype Step =
    | Read(key: CacheKey)
    | Value(batch: nat, prices: Prices, rates: Rates)
    | Stamp(batch: nat, securityType: string, userLabel: Option<string>, accountLabel: Option<string>)
    | Overwrite(batch: nat, holding: Holding)

  /** The stamping loop of `valued_holdings`; a row that cannot be valued ends it. */
  method ValueRows(rows: seq<Row>, prices: Prices, rates: Rates, ghost frame: set<Row>)
    requires forall r | r in rows :: r in frame
    modifies frame
  {
    for i := 0 to |rows| {
      var raised := rows[i].ApplyValuation(prices, rates);
      if raised { return; }
    }
  }

  method StampRows(
    rows: seq<Row>, securityType: string, userLabel: Option<string>, accountLabel: Option<string>,
    ghost frame: set<Row>)
    requires forall r | r in rows :: r in frame
    modifies frame
  {
    for i := 0 to |rows| {
      rows[i].securityType, rows[i].userLabel, rows[i].accountLabel := securityType, userLabel, accountLabel;
    }
  }

  method OverwriteRows(rows: seq<Row>, holding: Holding, ghost frame: set<Row>)
    requires forall r | r in rows :: r in frame
    modifies frame
  {
    for i := 0 to |rows| {
      rows[i].native := holding;
    }
  }

  /** Runs any sequence of reads and mutations of rows handed out so far. Whatever the callers do
      to those rows, every read returns what the uncached reader computes for its key. */
  method RunCallers(cache: HoldingsCache, steps: seq<Step>) returns (seen: seq<seq<Content>>, keys: seq<CacheKey>)
    requires cache.Valid()
    modifies cache
    ensures cache.Valid()
    ensures |seen| == |keys| && forall i | 0 <= i < |seen| :: seen[i] == PristineRows(cache.compute(keys[i]))
    ensures keys == KeysRead(steps)
  {
    seen, keys := [], [];
    var handedOut: seq<seq<Row>> := [];
    ghost var out: set<Row> := {};
    for i := 0 to |steps|
      invariant cache.Valid()
      invariant keys == KeysRead(steps[..i])
      invariant |seen| == |keys| && forall k | 0 <= k < |seen| :: seen[k] == PristineRows(cache.compute(keys[k]))
      invariant fresh(out) && out !! cache.owned
      invariant forall rows | rows in handedOut :: forall r | r in rows :: r in out
    {
      assert steps[..i + 1][..i] == steps[..i];
      match steps[i] {
        case Read(key) =>
          var rows := cache.ReadRows(key);
          var contents := Observe(rows, cache.compute(key));
          seen, keys := seen + [contents], keys + [key];
          handedOut := handedOut + [rows];
          out := out + set r | r in rows;
        case Value(batch, prices, rates) =>
          if batch < |handedOut| {
            var rows := handedOut[batch];
            assert rows in handedOut && forall r | r in rows :: r in out;
            ValueRows(rows, prices, rates, out);
          }
        case Stamp(batch, securityType, userLabel, accountLabel) =>
          if batch < |handedOut| {
            var rows := handedOut[batch];
            assert rows in handedOut && forall r | r in rows :: r in out;
            StampRows(rows, securityType, userLabel, accountLabel, out);
          }
        case Overwrite(batch, holding) =>
          if batch < |handedOut| {
            var rows := handedOut[batch];
            assert rows in handedOut && forall r | r in rows :: r in out;
            OverwriteRows(rows, holding, out);
          }
      }
    }
    assert steps[..|steps|] == steps;
  }

  function KeysRead(steps: seq<Step>): seq<CacheKey> {
    if |steps| == 0 then []
    else
      var most := KeysRead(steps[..|steps| - 1]);
      match steps[|steps| - 1]
      case Read(key) => most + [key]
      case _ => most
  }

  function ReadCount(steps: seq<Step>): nat {
    if |steps| == 0 then 0 else ReadCount(steps[..|steps| - 1]) + if steps[|steps| - 1].Read? then 1 else 0
  }

  /** The keys are those of the reads, one for each, in order. */
  lemma {:induction false} EachReadIsListed(steps: seq<Step>)
    ensures |KeysRead(steps)| == ReadCount(steps)
    ensures forall i | 0 <= i < |steps| && steps[i].Read? ::
      ReadCount(steps[..i]) < ReadCount(steps) && KeysRead(steps)[ReadCount(steps[..i])] == steps[i].key
    decreases |steps|
  {
    if |steps| > 0 {
      var most := steps[..|steps| - 1];
      EachReadIsListed(most);
      forall i | 0 <= i < |most| ensures most[..i] == steps[..i] {}
    }
  }

  /** What a caller sees in the rows, field by field. */
  method Observe(rows: seq<Row>, computed: seq<Holding>) returns (contents: seq<Content>)
    ensures Hold(rows, contents)
    ensures Hold(rows, PristineRows(computed)) ==> contents == PristineRows(computed)
  {
    contents := [];
    for i := 0 to |rows|
      invariant |contents| == i && forall k | 0 <= k < i :: contents[k] == ContentOf(rows[k])
    {
      var r := rows[i];
      contents := contents + [Content(r.native,
        Fields(r.fxRate, r.costBasisBase, r.lastPrice, r.lastPriceDay, r.fromClose, r.valueLocal, r.value, r.gain,
               r.gainPct),
        r.securityType, r.userLabel, r.accountLabel)];
    }
  }
}
