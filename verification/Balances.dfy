/** The read views a wallet backend sees, and how they agree (src/db.rs, src/api.rs). */
module Balances {
  import opened Basics
  import opened Text
  import opened Rewind
  import opened Chains
  import opened Tables
  import opened Protocol
  import opened Safety

  const U64_MAX: u64 := TWO_TO_THE_64 - 1

  // ---- the selections and their exact totals ----

  function UnspentOf(outputs: Outputs, rh: string): set<string> {
    set c | c in outputs && outputs[c].owner == rh && !outputs[c].spent
  }

  function UnlockedOf(outputs: Outputs, rh: string, tip: nat): set<string> {
    set c | c in outputs && outputs[c].owner == rh && !outputs[c].spent && outputs[c].lockHeight <= tip
  }

  /** The exact sum of the amounts of these rows. */
  ghost function Total(outputs: Outputs, cs: set<string>): nat
    requires cs <= outputs.Keys
  {
    if cs == {} then 0
    else
      var c :| c in cs;
      outputs[c].value + Total(outputs, cs - {c})
  }

  /** The sum does not depend on the order rows are taken in. */
  lemma {:induction false} TotalSplit(outputs: Outputs, cs: set<string>, c: string)
    requires cs <= outputs.Keys && c in cs
    ensures Total(outputs, cs) == outputs[c].value + Total(outputs, cs - {c})
    decreases cs
  {
    var d :| d in cs && Total(outputs, cs) == outputs[d].value + Total(outputs, cs - {d});
    if d != c {
      TotalSplit(outputs, cs - {d}, c);
      TotalSplit(outputs, cs - {c}, d);
      assert cs - {d} - {c} == cs - {c} - {d};
    }
  }

  lemma {:induction false} TotalMonotone(outputs: Outputs, cs: set<string>, ds: set<string>)
    requires cs <= ds <= outputs.Keys
    ensures Total(outputs, cs) <= Total(outputs, ds)
    decreases cs
  {
    if c :| c in cs {
      TotalSplit(outputs, cs, c);
      TotalSplit(outputs, ds, c);
      TotalMonotone(outputs, cs - {c}, ds - {c});
    }
  }

  // ---- `sum_value_rows` ----

  function SumAmounts(values: seq<string>): nat {
    if |values| == 0 then 0 else SumAmounts(values[..|values| - 1]) + ReadAmount(values[|values| - 1])
  }

  /** Total clamped to `u64`, and row count. */
  function SumValueRows(values: seq<string>): (u64, nat) {
    (Min(SumAmounts(values), U64_MAX), |values|)
  }

  /** These commitments, each once. */
  ghost predicate Enumerates(picked: seq<string>, cs: set<string>) {
    && (forall c :: c in picked <==> c in cs)
    && (forall j, k :: 0 <= j < k < |picked| ==> picked[j] != picked[k])
  }

  function AmountsOf(outputs: Outputs, picked: seq<string>): seq<string>
    requires forall c :: c in picked ==> c in outputs
  {
    seq(|picked|, k requires 0 <= k < |picked| => AmountColumn(outputs[picked[k]]))
  }

  lemma EnumeratesFewer(picked: seq<string>, cs: set<string>)
    requires Enumerates(picked, cs) && |picked| > 0
    ensures Enumerates(picked[..|picked| - 1], cs - {picked[|picked| - 1]})
  {
    var n := |picked| - 1;
    forall d | d in cs && d != picked[n] ensures d in picked[..n] {
      var k :| 0 <= k < |picked| && picked[k] == d;
      assert picked[..n][k] == d;
    }
  }

  lemma AmountsSnoc(outputs: Outputs, picked: seq<string>)
    requires |picked| > 0 && forall c :: c in picked ==> c in outputs
    ensures SumAmounts(AmountsOf(outputs, picked)) ==
            SumAmounts(AmountsOf(outputs, picked[..|picked| - 1])) + outputs[picked[|picked| - 1]].value
  {
    var n := |picked| - 1;
    AmountRoundTrip(outputs[picked[n]].value);
    assert AmountsOf(outputs, picked)[..n] == AmountsOf(outputs, picked[..n]);
  }

  /** Summing the text column over any enumeration gives the exact total and the number of rows. */
  lemma {:induction false} SumOfEnumeration(outputs: Outputs, picked: seq<string>, cs: set<string>)
    requires Enumerates(picked, cs) && cs <= outputs.Keys
    ensures SumAmounts(AmountsOf(outputs, picked)) == Total(outputs, cs) && |picked| == |cs|
    decreases |picked|
  {
    if |picked| == 0 {
      assert cs == {};
    } else {
      var n := |picked| - 1;
      EnumeratesFewer(picked, cs);
      SumOfEnumeration(outputs, picked[..n], cs - {picked[n]});
      AmountsSnoc(outputs, picked);
      TotalSplit(outputs, cs, picked[n]);
    }
  }

  // ---- the queries ----

  /** SELECT value ... WHERE: the rows in whatever order the database returns them. */
  method SelectAmounts(outputs: Outputs, cs: set<string>) returns (values: seq<string>)
    requires cs <= outputs.Keys
    ensures SumAmounts(values) == Total(outputs, cs) && |values| == |cs|
  {
    values := [];
    ghost var picked := [];
    var rest := cs;
    while rest != {}
      invariant rest <= cs
      invariant Enumerates(picked, cs - rest) && values == AmountsOf(outputs, picked)
      decreases rest
    {
      var c :| c in rest;
      values := values + [AmountColumn(outputs[c])];
      picked := picked + [c];
      rest := rest - {c};
    }
    SumOfEnumeration(outputs, picked, cs);
  }

  method AccountTotals(outputs: Outputs, rh: string) returns (total: u64, count: nat)
    ensures total == Min(Total(outputs, UnspentOf(outputs, rh)), U64_MAX)
    ensures count == |UnspentOf(outputs, rh)|
  {
    var values := SelectAmounts(outputs, UnspentOf(outputs, rh));
    var sums := SumValueRows(values);
    total, count := sums.0, sums.1;
  }

  method AccountUnlockedTotals(outputs: Outputs, rh: string, tip: nat) returns (total: u64, count: nat)
    ensures total == Min(Total(outputs, UnlockedOf(outputs, rh, tip)), U64_MAX)
    ensures count == |UnlockedOf(outputs, rh, tip)|
  {
    var values := SelectAmounts(outputs, UnlockedOf(outputs, rh, tip));
    var sums := SumValueRows(values);
    total, count := sums.0, sums.1;
  }

  datatype UnspentOut = UnspentOut(
    commit: string, value: u64, height: nat, mmrIndex: nat, isCoinbase: bool, lockHeight: nat,
    spendable: bool, keyId: string, nChild: int)

  /** One served output: columns read back, and whether it can be spent at this tip. */
  function Served(outputs: Outputs, c: string, tip: nat): UnspentOut
    requires c in outputs
  {
    var row := outputs[c];
    UnspentOut(c, ReadAmount(AmountColumn(row)), row.height, row.mmrIndex, row.isCoinbase, row.lockHeight,
               row.lockHeight <= tip, row.keyId, ReadNChild(NChildColumn(row.nChild)))
  }

  function Commits(outs: seq<UnspentOut>): (cs: seq<string>)
    ensures |cs| == |outs|
  {
    seq(|outs|, k requires 0 <= k < |outs| => outs[k].commit)
  }

  ghost predicate AllServed(outputs: Outputs, tip: nat, outs: seq<UnspentOut>) {
    forall k :: 0 <= k < |outs| ==> outs[k].commit in outputs && outs[k] == Served(outputs, outs[k].commit, tip)
  }

  /** The listing: every unspent output of the account once, lowest heights first. */
  ghost predicate IsListing(outputs: Outputs, rh: string, tip: nat, outs: seq<UnspentOut>) {
    && Enumerates(Commits(outs), UnspentOf(outputs, rh)) && AllServed(outputs, tip, outs)
    && (forall j, k :: 0 <= j < k < |outs| ==> outs[j].height <= outs[k].height)
  }

  ghost predicate IsLowest(outputs: Outputs, cs: set<string>, c: string)
    requires cs <= outputs.Keys
  {
    c in cs && forall d :: d in cs ==> outputs[c].height <= outputs[d].height
  }

  lemma {:induction false} LowestExists(outputs: Outputs, cs: set<string>)
    requires cs != {} && cs <= outputs.Keys
    ensures exists c :: IsLowest(outputs, cs, c)
    decreases cs
  {
    var c :| c in cs;
    if cs == {c} {
      assert IsLowest(outputs, cs, c);
    } else {
      LowestExists(outputs, cs - {c});
      var d :| IsLowest(outputs, cs - {c}, d);
      assert IsLowest(outputs, cs, if outputs[c].height <= outputs[d].height then c else d);
    }
  }

  method GetUnspentOuts(outputs: Outputs, rh: string, tip: nat) returns (outs: seq<UnspentOut>)
    ensures IsListing(outputs, rh, tip, outs)
  {
    hide ReadAmount; hide Decimal;
    outs := [];
    var all := UnspentOf(outputs, rh);
    var rest := all;
    while rest != {}
      invariant rest <= all
      invariant Enumerates(Commits(outs), all - rest) && AllServed(outputs, tip, outs)
      invariant forall j, k :: 0 <= j < k < |outs| ==> outs[j].height <= outs[k].height
      invariant forall k, c :: 0 <= k < |outs| && c in rest ==> outs[k].height <= outputs[c].height
      decreases rest
    {
      LowestExists(outputs, rest);
      ghost var low :| IsLowest(outputs, rest, low);
      var c :| c in rest && forall d :: d in rest ==> outputs[c].height <= outputs[d].height;
      ghost var shorter := outs;
      outs := outs + [Served(outputs, c, tip)];
      assert Commits(outs) == Commits(shorter) + [c];
      assert forall k :: 0 <= k < |shorter| ==> outs[k] == shorter[k];
      rest := rest - {c};
    }
  }

  /**
   The listing, column by column: every unspent row of the account, each once, lowest height first, with the stored
   columns each in its place; only a child number from 2^31 on is lost.
   */
  lemma ListingShows(outputs: Outputs, rh: string, tip: nat, outs: seq<UnspentOut>)
    requires IsListing(outputs, rh, tip, outs)
    ensures forall k :: 0 <= k < |outs| ==>
              var c := outs[k].commit;
              && c in outputs && outputs[c].owner == rh && !outputs[c].spent
              && outs[k].value == outputs[c].value && outs[k].height == outputs[c].height
              && outs[k].mmrIndex == outputs[c].mmrIndex && outs[k].isCoinbase == outputs[c].isCoinbase
              && outs[k].lockHeight == outputs[c].lockHeight && outs[k].keyId == outputs[c].keyId
              && (outs[k].spendable <==> outputs[c].lockHeight <= tip)
              && outs[k].nChild == (if outputs[c].nChild < 0x8000_0000 then outputs[c].nChild else 0)
    ensures forall c :: c in outputs && outputs[c].owner == rh && !outputs[c].spent ==>
              exists k :: 0 <= k < |outs| && outs[k].commit == c
    ensures forall j, k :: 0 <= j < k < |outs| ==>
              outs[j].commit != outs[k].commit && outs[j].height <= outs[k].height
  {
    hide ReadAmount; hide Decimal;
    forall k | 0 <= k < |outs| ensures outs[k].commit in UnspentOf(outputs, rh) {
      assert Commits(outs)[k] in Commits(outs);
    }
    forall k | 0 <= k < |outs| ensures outs[k].value == outputs[outs[k].commit].value {
      AmountRoundTrip(outputs[outs[k].commit].value);
    }
    forall c | c in outputs && outputs[c].owner == rh && !outputs[c].spent
      ensures exists k :: 0 <= k < |outs| && outs[k].commit == c
    {
      assert c in UnspentOf(outputs, rh);
      var k :| 0 <= k < |Commits(outs)| && Commits(outs)[k] == c;
      assert outs[k].commit == c;
    }
    forall j, k | 0 <= j < k < |outs| ensures outs[j].commit != outs[k].commit {
      assert Commits(outs)[j] != Commits(outs)[k];
    }
  }

  /**
   In every reachable state what the wallet is served is the chain's own output, spendable by the path it names: each
   column is that of the leaf at the served index, and `key_id` spells a path ending in `n_child`,
     if that is below 2^31.
   */
  lemma ListingIsTrue(w: World, rh: string, tip: nat, outs: seq<UnspentOut>, k: nat)
    requires Reachable(w) && IsListing(w.db.outputs, rh, tip, outs) && k < |outs|
    ensures var out := outs[k];
            w.chain.Has(out.mmrIndex) &&
            var leaf := w.chain.At(out.mmrIndex);
            && out.commit == leaf.commit && out.height == leaf.height && out.isCoinbase == leaf.coinbase
            && out.lockHeight == leaf.height + (if leaf.coinbase then 1440 else 0)
            && (out.spendable <==> out.lockHeight <= tip)
            && Opens(rh, leaf.proof) && out.value == Found(rh, leaf.proof).value
            && out.keyId == Found(rh, leaf.proof).keyId
            && (Found(rh, leaf.proof).nChild < 0x8000_0000 ==>
                  out.nChild == Found(rh, leaf.proof).nChild && NamesPath(out.keyId, out.nChild))
  {
    hide RewindOutput; hide IsListing; hide NamesPath;
    ListingShows(w.db.outputs, rh, tip, outs);
    WholeRunRowTruth(w, outs[k].commit);
  }

  /** The database as each statement of the balance handler finds it: no transaction spans them. */
  datatype Views = Views(totals: Db, unlocked: Db, scan: Db)

  datatype BalanceResponse = BalanceResponse(
    total: u64, unlocked: u64, count: nat, scannedHeight: nat, blockchainHeight: nat)

  ghost predicate IsBalance(views: Views, rh: string, tip: nat, b: BalanceResponse) {
    && b.total == Min(Total(views.totals.outputs, UnspentOf(views.totals.outputs, rh)), U64_MAX)
    && b.count == |UnspentOf(views.totals.outputs, rh)|
    && b.unlocked == Min(Total(views.unlocked.outputs, UnlockedOf(views.unlocked.outputs, rh, tip)), U64_MAX)
    && b.scannedHeight == (if rh in views.scan.accounts then views.scan.accounts[rh].scan else 0)
    && b.blockchainHeight == tip
  }

  method GetBalance(views: Views, rh: string, tip: nat) returns (b: BalanceResponse)
    ensures IsBalance(views, rh, tip, b)
  {
    var total, count := AccountTotals(views.totals.outputs, rh);
    var unlocked, _ := AccountUnlockedTotals(views.unlocked.outputs, rh, tip);
    var scanned := if rh in views.scan.accounts then views.scan.accounts[rh].scan else 0;
    b := BalanceResponse(total, unlocked, count, scanned, tip);
  }

  /** Sums below 2^64 are served as they are, larger ones as the largest 64-bit number. */
  lemma BalanceIsExact(views: Views, rh: string, tip: nat, b: BalanceResponse)
    requires IsBalance(views, rh, tip, b)
    ensures var total := Total(views.totals.outputs, UnspentOf(views.totals.outputs, rh));
            b.total == if total <= 0xFFFF_FFFF_FFFF_FFFF then total else 0xFFFF_FFFF_FFFF_FFFF
    ensures var unlocked := Total(views.unlocked.outputs, UnlockedOf(views.unlocked.outputs, rh, tip));
            b.unlocked == if unlocked <= 0xFFFF_FFFF_FFFF_FFFF then unlocked else 0xFFFF_FFFF_FFFF_FFFF
    ensures forall c :: c in UnlockedOf(views.unlocked.outputs, rh, tip) <==>
              c in views.unlocked.outputs && views.unlocked.outputs[c].owner == rh
              && !views.unlocked.outputs[c].spent && views.unlocked.outputs[c].lockHeight <= tip
    ensures forall c :: c in UnspentOf(views.totals.outputs, rh) <==>
              c in views.totals.outputs && views.totals.outputs[c].owner == rh && !views.totals.outputs[c].spent
  {
  }

  // ---- what happens between the reads ----

  /** The account's rows that count more at the second read than at the first. */
  function Gained(before: Outputs, after: Outputs, rh: string): set<string> {
    set c | c in UnspentOf(after, rh) && (c !in UnspentOf(before, rh) || after[c].value > before[c].value)
  }

  lemma {:induction false} TotalOfBoth(outputs: Outputs, cs: set<string>, ds: set<string>)
    requires cs !! ds && cs + ds <= outputs.Keys
    ensures Total(outputs, cs + ds) == Total(outputs, cs) + Total(outputs, ds)
    decreases cs
  {
    if c :| c in cs {
      TotalSplit(outputs, cs, c);
      TotalSplit(outputs, cs + ds, c);
      TotalOfBoth(outputs, cs - {c}, ds);
      assert cs + ds - {c} == cs - {c} + ds;
    } else {
      assert cs + ds == ds;
    }
  }

  /** Rows that count no more than before add up to no more than before. */
  lemma {:induction false} TotalShrinks(before: Outputs, after: Outputs, cs: set<string>)
    requires cs <= before.Keys && cs <= after.Keys && forall c :: c in cs ==> after[c].value <= before[c].value
    ensures Total(after, cs) <= Total(before, cs)
    decreases cs
  {
    if c :| c in cs {
      TotalSplit(before, cs, c);
      TotalSplit(after, cs, c);
      TotalShrinks(before, after, cs - {c});
    }
  }

  /**
   Whatever happens between the two reads, unlocked exceeds total by at most what the account gained in
   between; if it gained nothing, unlocked is part of the total.
   */
  lemma UnlockedAcrossReads(views: Views, rh: string, tip: nat, b: BalanceResponse)
    requires IsBalance(views, rh, tip, b)
    ensures var gained := Gained(views.totals.outputs, views.unlocked.outputs, rh);
            && b.unlocked <= b.total + Total(views.unlocked.outputs, gained)
            && (gained == {} ==> b.unlocked <= b.total)
  {
    var before, after := views.totals.outputs, views.unlocked.outputs;
    var gained := Gained(before, after, rh);
    var kept := UnspentOf(after, rh) - gained;
    assert kept + gained == UnspentOf(after, rh);
    TotalMonotone(after, UnlockedOf(after, rh, tip), UnspentOf(after, rh));
    TotalOfBoth(after, kept, gained);
    TotalShrinks(before, after, kept);
    TotalMonotone(before, kept, UnspentOf(before, rh));
  }

  /**
   Exactly: unlocked stays within total at every tip if and only if the account's unspent rows add up, clamped to
   64 bits, to no more at the second read than at the first.
   */
  lemma UnlockedWithinTotalIff(views: Views, rh: string)
    ensures (forall tip: nat, b :: IsBalance(views, rh, tip, b) ==> b.unlocked <= b.total) <==>
            Min(Total(views.unlocked.outputs, UnspentOf(views.unlocked.outputs, rh)), U64_MAX) <=
            Min(Total(views.totals.outputs, UnspentOf(views.totals.outputs, rh)), U64_MAX)
  {
    var after := views.unlocked.outputs;
    forall tip: nat { TotalMonotone(after, UnlockedOf(after, rh, tip), UnspentOf(after, rh)); }
    var top := Highest(after, UnspentOf(after, rh));
    assert UnlockedOf(after, rh, top) == UnspentOf(after, rh);
    var b := BalanceResponse(
      Min(Total(views.totals.outputs, UnspentOf(views.totals.outputs, rh)), U64_MAX),
      Min(Total(after, UnspentOf(after, rh)), U64_MAX),
      |UnspentOf(views.totals.outputs, rh)|,
      if rh in views.scan.accounts then views.scan.accounts[rh].scan else 0,
      top);
    assert IsBalance(views, rh, top, b);
  }

  /** A height at which all of these rows are past their lock. */
  ghost function Highest(outputs: Outputs, cs: set<string>): (h: nat)
    requires cs <= outputs.Keys
    ensures forall c :: c in cs ==> outputs[c].lockHeight <= h
  {
    if cs == {} then 0
    else
      var c :| c in cs;
      Max(outputs[c].lockHeight, Highest(outputs, cs - {c}))
  }

  /** A step that can give the account nothing: neither a match of its own nor a rollback undoing spends. */
  ghost predicate Gainless(w: World, v: World, rh: string) {
    exists e :: Enabled(w, e) && After(w, e) == v && !e.RollBack? && !(e.StoreMatch? && e.rewindHash == rh)
  }

  /** Every unspent row of the account was there before, as it is. */
  predicate NothingNew(before: Outputs, after: Outputs, rh: string) {
    forall c :: c in after && after[c].owner == rh && !after[c].spent ==> c in before && before[c] == after[c]
  }

  lemma NothingNewGainsNothing(before: Outputs, after: Outputs, rh: string)
    requires NothingNew(before, after, rh)
    ensures Gained(before, after, rh) == {}
  {
  }

  lemma GainlessStep(w: World, v: World, rh: string)
    requires Gainless(w, v, rh)
    ensures Gained(w.db.outputs, v.db.outputs, rh) == {}
  {
    hide RewindOutput; hide HarmedBy; hide ForksWithinDepth; hide Follows; hide FullyStored; hide Chain.Live;
    hide Gained;
    var e :| Enabled(w, e) && After(w, e) == v && !e.RollBack? && !(e.StoreMatch? && e.rewindHash == rh);
    assert NothingNew(w.db.outputs, v.db.outputs, rh);
    NothingNewGainsNothing(w.db.outputs, v.db.outputs, rh);
  }

  /**
   Of all that the scanner, registrations and the admin can do between the reads, however often, only a match of
   this account being stored, or a rollback undoing spends, gains the account anything.
   */
  lemma {:induction false} GainsComeFrom(ws: seq<World>, rh: string)
    requires |ws| > 0 && forall j, k :: 0 <= j && k == j + 1 && k < |ws| ==> Gainless(ws[j], ws[k], rh)
    ensures Gained(ws[0].db.outputs, ws[|ws| - 1].db.outputs, rh) == {}
  {
    if |ws| > 1 {
      var n := |ws| - 1;
      GainsComeFrom(ws[..n], rh);
      assert Gainless(ws[n - 1], ws[n], rh);
      GainlessStep(ws[n - 1], ws[n], rh);
      GainedTrans(ws[0].db.outputs, ws[n - 1].db.outputs, ws[n].db.outputs, rh);
    }
  }

  lemma GainedTrans(a: Outputs, b: Outputs, c: Outputs, rh: string)
    requires Gained(a, b, rh) == {} && Gained(b, c, rh) == {}
    ensures Gained(a, c, rh) == {}
  {
    forall x | x in UnspentOf(c, rh) ensures x in UnspentOf(a, rh) && c[x].value <= a[x].value {
      assert x !in Gained(b, c, rh);
      assert x !in Gained(a, b, rh);
    }
  }

  /** So a match stored between the reads can show more unlocked than there is in total. */
  lemma UnlockedMayExceedTotal(before: Db, row: Row, tip: nat, b: BalanceResponse)
    requires UnspentOf(before.outputs, row.owner) == {} && "X" !in before.outputs
    requires row.value > 0 && !row.spent && row.lockHeight <= tip
    requires IsBalance(Views(before, before.(outputs := Insert(before.outputs, "X", row)), before), row.owner, tip, b)
    ensures b.total == 0 && b.unlocked == row.value
  {
    var after := Insert(before.outputs, "X", row);
    assert UnlockedOf(after, row.owner, tip) == {"X"};
    TotalSplit(after, {"X"}, "X");
    assert {"X"} - {"X"} == {};
  }

  // ---- agreement ----

  function ListedTotal(outs: seq<UnspentOut>): nat {
    if |outs| == 0 then 0 else ListedTotal(outs[..|outs| - 1]) + outs[|outs| - 1].value
  }

  function ListedSpendable(outs: seq<UnspentOut>): nat {
    if |outs| == 0 then 0
    else ListedSpendable(outs[..|outs| - 1]) + (if outs[|outs| - 1].spendable then outs[|outs| - 1].value else 0)
  }

  /** Adding up served outputs adds up the rows they came from. */
  lemma {:induction false} ListedTotalIs(outputs: Outputs, tip: nat, outs: seq<UnspentOut>)
    requires AllServed(outputs, tip, outs)
    ensures forall c :: c in Commits(outs) ==> c in outputs
    ensures ListedTotal(outs) == SumAmounts(AmountsOf(outputs, Commits(outs)))
  {
    if |outs| > 0 {
      var n := |outs| - 1;
      ListedTotalIs(outputs, tip, outs[..n]);
      assert Commits(outs) == Commits(outs[..n]) + [outs[n].commit];
      assert AmountsOf(outputs, Commits(outs))[..n] == AmountsOf(outputs, Commits(outs[..n]));
    }
  }

  lemma {:induction false} ListedSpendableIs(outputs: Outputs, tip: nat, outs: seq<UnspentOut>, open: set<string>)
    requires AllServed(outputs, tip, outs) && open <= outputs.Keys
    requires forall j, k :: 0 <= j < k < |outs| ==> Commits(outs)[j] != Commits(outs)[k]
    requires forall c :: c in open <==> c in Commits(outs) && c in outputs && outputs[c].lockHeight <= tip
    ensures ListedSpendable(outs) == Total(outputs, open)
    decreases |outs|
  {
    hide ReadAmount; hide Decimal; hide UnlockedOf;
    if |outs| == 0 {
      assert open == {};
    } else {
      var n := |outs| - 1;
      var c := outs[n].commit;
      assert Commits(outs) == Commits(outs[..n]) + [c];
      assert Commits(outs)[n] == c;
      assert forall j :: 0 <= j < n ==> Commits(outs)[j] == Commits(outs[..n])[j];
      ListedSpendableIs(outputs, tip, outs[..n], open - {c});
      AmountRoundTrip(outputs[c].value);
      if c in open { TotalSplit(outputs, open, c); } else { assert open - {c} == open; }
    }
  }

  /** Balance and listing are two views of the same outputs, read by read. */
  lemma BalanceAndListingAgree(views: Views, rh: string, tip: nat, b: BalanceResponse, outputs: Outputs,
                               outs: seq<UnspentOut>)
    requires IsBalance(views, rh, tip, b) && IsListing(outputs, rh, tip, outs)
    ensures views.totals.outputs == outputs ==> b.total == Min(ListedTotal(outs), U64_MAX) && b.count == |outs|
    ensures views.unlocked.outputs == outputs ==> b.unlocked == Min(ListedSpendable(outs), U64_MAX)
  {
    ListedTotalIs(outputs, tip, outs);
    SumOfEnumeration(outputs, Commits(outs), UnspentOf(outputs, rh));
    ListedSpendableIs(outputs, tip, outs, UnlockedOf(outputs, rh, tip));
  }

  /** With all reads of one database, unlocked is part of the total, and only grows with the tip. */
  lemma UnlockedBounds(db: Db, rh: string, tip: nat, later: nat, b: BalanceResponse, c: BalanceResponse)
    requires tip <= later && IsBalance(Views(db, db, db), rh, tip, b) && IsBalance(Views(db, db, db), rh, later, c)
    ensures b.unlocked <= c.unlocked <= b.total == c.total
  {
    TotalMonotone(db.outputs, UnlockedOf(db.outputs, rh, tip), UnlockedOf(db.outputs, rh, later));
    TotalMonotone(db.outputs, UnlockedOf(db.outputs, rh, later), UnspentOf(db.outputs, rh));
  }

  /** In every reachable state, the unlocked rows are the unspent ones that are past maturity on the chain. */
  lemma UnlockedIsMature(w: World, rh: string, tip: nat, c: string)
    requires Reachable(w) && c in UnspentOf(w.db.outputs, rh)
    ensures w.chain.Has(w.db.outputs[c].mmrIndex)
    ensures var leaf := w.chain.At(w.db.outputs[c].mmrIndex);
            leaf.commit == c && (forall a :: Opens(a, leaf.proof) <==> a == rh) &&
            (c in UnlockedOf(w.db.outputs, rh, tip) <==> tip >= leaf.height + (if leaf.coinbase then 1440 else 0))
  {
    WholeRunRowTruth(w, c);
  }
}