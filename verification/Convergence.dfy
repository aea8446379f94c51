/** What completed ticks achieve: agreement with the stateless scan, and how soon. */
module Convergence {
  import opened Basics
  import opened Rewind
  import opened Chains
  import opened Tables
  import opened Stores
  import opened Protocol
  import opened Consistency
  import opened Safety
  import opened Outcomes
  import opened Ticks
  import opened Balances

  // ---- a completed tick, as a whole ----

  /** A row after a pass is an old one, or a fresh and true one of a live output. */
  lemma StoredRowTrue(db: Db, chain: Chain, lo: nat, hi: nat, names: seq<string>, c: string)
    requires RowsTrue(db, chain) && c in StoreAll(db.outputs, chain.UnspentRange(lo, hi), names)
    ensures var row := StoreAll(db.outputs, chain.UnspentRange(lo, hi), names)[c];
            && RowTrue(chain, c, row) && SpendTrue(chain, row)
            && (c in db.outputs ==> row == db.outputs[c])
            && (c !in db.outputs ==> chain.Live(c) && !row.spent && row.owner in names)
  {
    hide RewindOutput; hide StoreAll;
    var outs := chain.UnspentRange(lo, hi);
    StoreAllMembers(db.outputs, outs, names, c);
    if c in db.outputs {
      assert RowTrue(chain, c, db.outputs[c]) && SpendTrue(chain, db.outputs[c]);
    } else {
      var k :| 0 <= k < |outs| && outs[k].commit == c && FirstMatch(names, outs[k]).Some? &&
        StoreAll(db.outputs, outs, names)[c] ==
        NewRow(outs[k], FirstMatch(names, outs[k]).value, Found(FirstMatch(names, outs[k]).value, outs[k].proof));
      RangeMembers(chain, lo, hi, outs[k]);
    }
  }

  lemma StoreAllKeepsRows(db: Db, chain: Chain, lo: nat, hi: nat, names: seq<string>)
    requires RowsTrue(db, chain)
    ensures RowsTrue(db.(outputs := StoreAll(db.outputs, chain.UnspentRange(lo, hi), names)), chain)
  {
    hide RewindOutput; hide StoreAll; hide Chain.UnspentRange;
    var outputs := StoreAll(db.outputs, chain.UnspentRange(lo, hi), names);
    forall c | c in outputs ensures RowTrue(chain, c, outputs[c]) && SpendTrue(chain, outputs[c]) {
      StoredRowTrue(db, chain, lo, hi, names, c);
    }
  }

  lemma SettleKeepsRows(db: Db, chain: Chain)
    requires chain.Valid() && RowsTrue(db, chain)
    ensures RowsTrue(db.(outputs := Settle(db.outputs, chain)), chain)
  {
    hide RewindOutput;
    var outputs := Settle(db.outputs, chain);
    forall c | c in outputs ensures RowTrue(chain, c, outputs[c]) && SpendTrue(chain, outputs[c]) {
      assert RowTrue(chain, c, db.outputs[c]) && SpendTrue(chain, db.outputs[c]);
      if !chain.Live(c) {
        GoneIsSpent(chain, c, db.outputs[c]);
      }
    }
  }

  /** Every row a tick adds or marks leaves every other where it is. */
  lemma TickOnlyAdds(db: Db, chain: Chain, rows: seq<AccountRow>)
    ensures db.outputs.Keys <= Scanned(db, chain, rows).outputs.Keys <= TickOutcome(db, chain, rows).outputs.Keys
  {
    hide StoreAll; hide Chain.UnspentRange; hide Chain.Live;
    StoreAllGrows(db.outputs, NewOutputs(db, chain), CaughtUpNames(rows, db.PrevTip()));
    match FirstBehind(rows, db.PrevTip())
    case None =>
    case Some(row) =>
      var outs := chain.UnspentRange(chain.FirstIndex(row.start), chain.Size());
      StoreAllGrows(Scanned(db, chain, rows).outputs, outs, [row.rewindHash]);
  }

  /** What a tick does to one account. */
  lemma TickAccount(db: Db, chain: Chain, rows: seq<AccountRow>, rh: string)
    requires ListsAccounts(rows, db.accounts) && rh in db.accounts
    ensures var d := TickOutcome(db, chain, rows);
            rh in d.accounts && d.accounts[rh] ==
              if db.CaughtUp(rh) || rh in Chosen(rows, db.PrevTip()) then db.accounts[rh].(scan := chain.Tip())
              else db.accounts[rh]
  {
    hide StoreAll; hide Settle; hide Chain.UnspentRange;
    ListingSplits(db, rows);
  }

  /** The forward scan leaves a caught-up account that misses nothing below the cursor with nothing to miss. */
  lemma ServedIsStored(db: Db, chain: Chain, rows: seq<AccountRow>, rh: string)
    requires ListsAccounts(rows, db.accounts) && Complete(db, chain, rh) && db.CaughtUp(rh)
    ensures FullyStored(TickOutcome(db, chain, rows), chain, rh)
  {
    hide RewindOutput; hide StoreAll; hide Chain.UnspentRange; hide Chain.Live;
    var names, d := CaughtUpNames(rows, db.PrevTip()), TickOutcome(db, chain, rows);
    ListingSplits(db, rows);
    TickAccount(db, chain, rows, rh);
    TickOnlyAdds(db, chain, rows);
    forall i: nat ensures !Missing(d, chain, rh, i) {
      if Missing(d, chain, rh, i) {
        assert Missing(db, chain, rh, i);
        OfferedIsStored(db.outputs, chain, db.ScannedIndex() + 1, chain.Size(), names, rh, i);
      }
    }
  }

  /** The very first tick serves every account, and from the first output of the chain on. */
  lemma FirstTick(db: Db, chain: Chain, rows: seq<AccountRow>, rh: string)
    requires db.cursor.None? && ListsAccounts(rows, db.accounts) && rh in db.accounts
    ensures var d := TickOutcome(db, chain, rows);
            && rh in d.accounts && d.accounts[rh] == Account(db.accounts[rh].start, chain.Tip())
            && forall i: nat :: chain.Funds(rh, i) ==> chain.At(i).commit in d.outputs
  {
    hide RewindOutput; hide StoreAll; hide Chain.UnspentRange; hide Chain.Live;
    var names := CaughtUpNames(rows, 0);
    ListingSplits(db, rows);
    TickAccount(db, chain, rows, rh);
    TickOnlyAdds(db, chain, rows);
    forall i: nat | chain.Funds(rh, i) ensures chain.At(i).commit in TickOutcome(db, chain, rows).outputs {
      OfferedIsStored(db.outputs, chain, 1, chain.Size(), names, rh, i);
    }
  }

  /** The backfill leaves its account with nothing to miss, whatever was missing before. */
  lemma ChosenIsStored(db: Db, chain: Chain, rows: seq<AccountRow>, rh: string)
    requires chain.Valid() && ListsAccounts(rows, db.accounts) && rh in Chosen(rows, db.PrevTip())
    ensures FullyStored(TickOutcome(db, chain, rows), chain, rh)
  {
    hide RewindOutput; hide StoreAll; hide Chain.UnspentRange; hide Settle;
    ListingSplits(db, rows);
    TickAccount(db, chain, rows, rh);
    var row := FirstBehind(rows, db.PrevTip()).value;
    var base, first := Scanned(db, chain, rows), chain.FirstIndex(row.start);
    forall i: nat ensures !Missing(TickOutcome(db, chain, rows), chain, rh, i) {
      if chain.Funds(rh, i) && chain.At(i).height > row.start {
        FirstIndexCuts(chain, row.start, i);
        OfferedIsStored(base.outputs, chain, first, chain.Size(), [rh], rh, i);
      }
    }
  }

  /** Outputs created in the birthday block itself are stored by the backfill, too. */
  lemma BackfillStoresFromBirthday(db: Db, chain: Chain, row: AccountRow, i: nat)
    requires chain.Valid() && RowsTrue(db, chain)
    requires chain.Funds(row.rewindHash, i) && chain.At(i).height >= row.start
    ensures LiveRowOf(Backfilled(db, chain, row), chain, row.rewindHash, i)
  {
    hide RewindOutput; hide StoreAll; hide Chain.UnspentRange; hide LiveRowOf; hide Chain.Valid;
    var rh, first := row.rewindHash, chain.FirstIndex(row.start);
    FirstIndexCuts(chain, row.start, i);
    OfferedIsStored(db.outputs, chain, first, chain.Size(), [rh], rh, i);
    StoreAllKeepsRows(db, chain, first, chain.Size(), [rh]);
    assert RowsTrue(Backfilled(db, chain, row), chain);
    StoredIsLiveRow(Backfilled(db, chain, row), chain, rh, i);
  }

  /** A backfill adds nothing but its account's outputs from the birthday block on. */
  lemma BackfillAddsOnly(db: Db, chain: Chain, row: AccountRow, c: string)
    requires chain.Valid() && c in Backfilled(db, chain, row).outputs && c !in db.outputs
    ensures var added := Backfilled(db, chain, row).outputs[c];
            && added.owner == row.rewindHash && added.height >= row.start && !added.spent
            && chain.Funds(added.owner, added.mmrIndex) && chain.At(added.mmrIndex).commit == c
            && added.height == chain.At(added.mmrIndex).height
  {
    hide RewindOutput; hide StoreAll; hide Chain.UnspentRange; hide Chain.Valid;
    AddedIsOffered(db.outputs, chain, chain.FirstIndex(row.start), chain.Size(), [row.rewindHash], c);
    FirstIndexCuts(chain, row.start, Backfilled(db, chain, row).outputs[c].mmrIndex);
  }

  /** A row a pass adds was made from an unspent output inside the offered range, for an account it serves. */
  lemma AddedIsOffered(outputs: Outputs, chain: Chain, lo: nat, hi: nat, names: seq<string>, c: string)
    requires c !in outputs && c in StoreAll(outputs, chain.UnspentRange(lo, hi), names)
    ensures var row := StoreAll(outputs, chain.UnspentRange(lo, hi), names)[c];
            && lo <= row.mmrIndex <= hi && row.owner in names && !row.spent
            && chain.Funds(row.owner, row.mmrIndex) && chain.At(row.mmrIndex).commit == c
            && row.height == chain.At(row.mmrIndex).height
  {
    hide RewindOutput; hide StoreAll; hide Chain.UnspentRange;
    var outs := chain.UnspentRange(lo, hi);
    StoreAllMembers(outputs, outs, names, c);
    var k :| 0 <= k < |outs| && outs[k].commit == c && FirstMatch(names, outs[k]).Some? &&
      StoreAll(outputs, outs, names)[c] ==
      NewRow(outs[k], FirstMatch(names, outs[k]).value, Found(FirstMatch(names, outs[k]).value, outs[k].proof));
    RangeMembers(chain, lo, hi, outs[k]);
  }

  /**
   A row a completed tick adds lies above the old cursor index and belongs to an account that was caught up, or
   belongs to the account backfilled and lies at or above its birthday.
   */
  lemma TickAddsOnly(db: Db, chain: Chain, rows: seq<AccountRow>, c: string)
    requires chain.Valid() && ListsAccounts(rows, db.accounts)
    requires c in TickOutcome(db, chain, rows).outputs && c !in db.outputs
    ensures var added := TickOutcome(db, chain, rows).outputs[c];
            && added.owner in db.accounts && chain.Has(added.mmrIndex)
            && added.height == chain.At(added.mmrIndex).height
            && ((db.CaughtUp(added.owner) && added.mmrIndex > db.ScannedIndex()) ||
                (added.owner in Chosen(rows, db.PrevTip()) && added.height >= db.accounts[added.owner].start))
  {
    hide RewindOutput; hide StoreAll; hide Chain.UnspentRange; hide Chain.Valid; hide Chain.Live; hide ListsAccounts;
    ListingSplits(db, rows);
    var base := Scanned(db, chain, rows);
    if c in base.outputs {
      AddedIsOffered(db.outputs, chain, db.ScannedIndex() + 1, chain.Size(), CaughtUpNames(rows, db.PrevTip()), c);
      match FirstBehind(rows, db.PrevTip())
      case None =>
      case Some(row) =>
        StoreAllMembers(base.outputs, chain.UnspentRange(chain.FirstIndex(row.start), chain.Size()), [row.rewindHash],
          c);
    } else {
      BackfillAddsOnly(base, chain, FirstBehind(rows, db.PrevTip()).value, c);
    }
  }

  /**
   One account through a completed tick, whatever it had lost before: if it was behind, or missed nothing it
   should have, it is behind afterwards or has everything.
   */
  lemma TickKeeps(db: Db, chain: Chain, rows: seq<AccountRow>, rh: string)
    requires Grounded(db, chain) && ListsAccounts(rows, db.accounts) && rh in db.accounts
    requires db.Behind(rh) || Whole(db, chain, rh)
    ensures var d := TickOutcome(db, chain, rows); d.Behind(rh) || FullyStored(d, chain, rh)
  {
    assert db.PrevTip() <= chain.Tip() && chain.Valid();
    hide RewindOutput; hide Grounded; hide Chain.Valid; hide ListsAccounts; hide FullyStored; hide Complete;
    hide Honest;
    if db.CaughtUp(rh) {
      ServedIsStored(db, chain, rows, rh);
    } else if rh in Chosen(rows, db.PrevTip()) {
      ChosenIsStored(db, chain, rows, rh);
    } else {
      TickAccount(db, chain, rows, rh);
      hide StoreAll; hide Settle; hide Chain.UnspentRange;
      assert TickOutcome(db, chain, rows).PrevTip() == chain.Tip();
    }
  }

  /** No stored output is believed unspent that the chain has spent. */
  ghost predicate Settled(db: Db, chain: Chain) {
    forall c :: c in db.outputs && !db.outputs[c].spent ==> chain.Live(c)
  }

  lemma BackfillSettles(db: Db, chain: Chain, row: AccountRow)
    requires RowsTrue(db, chain) && Settled(db, chain)
    ensures Settled(Backfilled(db, chain, row), chain)
  {
    hide Chain.Live; hide StoreAll; hide RowsTrue;
    var first := chain.FirstIndex(row.start);
    var e := Backfilled(db, chain, row);
    forall c | c in e.outputs && !e.outputs[c].spent ensures chain.Live(c) {
      StoreAllMembers(db.outputs, chain.UnspentRange(first, chain.Size()), [row.rewindHash], c);
      StoredRowTrue(db, chain, first, chain.Size(), [row.rewindHash], c);
    }
  }

  /** Rows after Phases 1 to 3. */
  lemma ScannedKeepsRows(db: Db, chain: Chain, rows: seq<AccountRow>)
    requires chain.Valid() && RowsTrue(db, chain)
    ensures RowsTrue(Scanned(db, chain, rows), chain) && Settled(Scanned(db, chain, rows), chain)
  {
    hide RewindOutput; hide RowTrue; hide SpendTrue; hide StoreAll; hide Settle; hide Chain.UnspentRange;
    hide Chain.Live;
    var names := CaughtUpNames(rows, db.PrevTip());
    var d := db.(outputs := StoreAll(db.outputs, NewOutputs(db, chain), names));
    StoreAllKeepsRows(db, chain, db.ScannedIndex() + 1, chain.Size(), names);
    SettleKeepsRows(d, chain);
    SettledRowsLive(d.outputs, chain);
    assert RowsTrue(d.(outputs := Settle(d.outputs, chain)), chain);
  }

  /** Spend flags are exact after every completed tick, whatever happened to any account before. */
  lemma TickSettles(db: Db, chain: Chain, rows: seq<AccountRow>)
    requires chain.Valid() && RowsTrue(db, chain)
    ensures var d := TickOutcome(db, chain, rows);
            && RowsTrue(d, chain) && Settled(d, chain)
            && forall c :: c in d.outputs ==> (d.outputs[c].spent <==> !chain.Live(c))
  {
    TickKeepsRows(db, chain, rows);
    FlagsExact(TickOutcome(db, chain, rows), chain);
  }

  lemma FlagsExact(db: Db, chain: Chain)
    requires chain.Valid() && RowsTrue(db, chain) && Settled(db, chain)
    ensures forall c :: c in db.outputs ==> (db.outputs[c].spent <==> !chain.Live(c))
  {
    hide RewindOutput;
    forall c | c in db.outputs ensures db.outputs[c].spent <==> !chain.Live(c) {
      assert RowTrue(chain, c, db.outputs[c]) && SpendTrue(chain, db.outputs[c]);
    }
  }

  /** True rows stay true through a tick, whatever the accounts. */
  lemma TickKeepsRows(db: Db, chain: Chain, rows: seq<AccountRow>)
    requires chain.Valid() && RowsTrue(db, chain)
    ensures RowsTrue(TickOutcome(db, chain, rows), chain) && Settled(TickOutcome(db, chain, rows), chain)
  {
    hide RewindOutput; hide RowTrue; hide SpendTrue; hide Scanned; hide StoreAll; hide Chain.UnspentRange;
    ScannedKeepsRows(db, chain, rows);
    match FirstBehind(rows, db.PrevTip())
    case None =>
    case Some(row) =>
      var base := Scanned(db, chain, rows);
      StoreAllKeepsRows(base, chain, chain.FirstIndex(row.start), chain.Size(), [row.rewindHash]);
      BackfillSettles(base, chain, row);
  }

  /** A spend a tick finds is recorded at its tip, every other column as it was; earlier spends keep their height. */
  lemma TickRecordsTip(db: Db, chain: Chain, rows: seq<AccountRow>, c: string)
    requires c in db.outputs
    ensures var d := TickOutcome(db, chain, rows);
            && c in d.outputs
            && (!db.outputs[c].spent && d.outputs[c].spent ==>
                  d.outputs[c] == db.outputs[c].(spent := true, spentHeight := Some(chain.Tip())))
            && (db.outputs[c].spent || !d.outputs[c].spent ==> d.outputs[c] == db.outputs[c])
  {
    TickLeavesRow(db, chain, rows, c);
  }

  /** A tick never corrects a row: it leaves it, or marks it spent. */
  lemma TickLeavesRow(db: Db, chain: Chain, rows: seq<AccountRow>, c: string)
    requires c in db.outputs
    ensures var d := TickOutcome(db, chain, rows);
            && c in d.outputs
            && (d.outputs[c] == db.outputs[c] ||
                (!db.outputs[c].spent && d.outputs[c] == Spend(db.outputs[c], chain.Tip())))
  {
    hide RewindOutput; hide StoreAll; hide Chain.UnspentRange;
    StoreAllMembers(db.outputs, NewOutputs(db, chain), CaughtUpNames(rows, db.PrevTip()), c);
    match FirstBehind(rows, db.PrevTip())
    case None =>
    case Some(row) =>
      var outs := chain.UnspentRange(chain.FirstIndex(row.start), chain.Size());
      StoreAllMembers(Scanned(db, chain, rows).outputs, outs, [row.rewindHash], c);
  }

  lemma TickMovesCursor(db: Db, chain: Chain, rows: seq<AccountRow>)
    requires chain.Valid() && CursorTrue(db, chain)
    ensures CursorAtTip(TickOutcome(db, chain, rows), chain) && CursorTrue(TickOutcome(db, chain, rows), chain)
  {
    hide StoreAll; hide Settle; hide Chain.UnspentRange; hide RewindOutput; hide Advanced;
    assert CursorAtTip(Scanned(db, chain, rows), chain);
  }

  lemma TickBounds(db: Db, chain: Chain, rows: seq<AccountRow>)
    requires CursorTrue(db, chain) && ScanBounded(db)
    ensures ScanBounded(TickOutcome(db, chain, rows))
  {
    assert db.PrevTip() <= chain.Tip();
    hide StoreAll; hide Settle; hide Chain.UnspentRange; hide RewindOutput; hide CursorTrue;
    assert ScanBounded(Scanned(db, chain, rows));
  }

  /** A completed tick on any ground: true rows, exact flags, bounded scan heights, cursor at the tip. */
  lemma TickGrounds(db: Db, chain: Chain, rows: seq<AccountRow>)
    requires Grounded(db, chain)
    ensures var d := TickOutcome(db, chain, rows);
            Grounded(d, chain) && CursorAtTip(d, chain) && Settled(d, chain)
  {
    hide RowsTrue; hide CursorTrue; hide ScanBounded; hide Settled; hide TickOutcome; hide Chain.Valid;
    TickKeepsRows(db, chain, rows);
    TickMovesCursor(db, chain, rows);
    TickBounds(db, chain, rows);
  }

  // ---- agreement with the stateless scan ----

  /** The on-demand scan: walk every unspent output and keep those the credential opens. */
  function Matches(outs: seq<ChainOutput>, rh: string): seq<ChainOutput> {
    if |outs| == 0 then []
    else Matches(outs[..|outs| - 1], rh) + if Opens(rh, outs[|outs| - 1].proof) then [outs[|outs| - 1]] else []
  }

  function StatelessScan(chain: Chain, rh: string): seq<ChainOutput> {
    Matches(chain.UnspentRange(1, chain.Size()), rh)
  }

  /** The value of the matches created above `start`. */
  function ValueAbove(outs: seq<ChainOutput>, rh: string, start: nat): nat {
    if |outs| == 0 then 0
    else
      var out := outs[|outs| - 1];
      ValueAbove(outs[..|outs| - 1], rh, start) +
      if Opens(rh, out.proof) && out.height > start then Found(rh, out.proof).value else 0
  }

  lemma {:induction false} MatchesMembers(outs: seq<ChainOutput>, rh: string, out: ChainOutput)
    ensures out in Matches(outs, rh) <==> out in outs && Opens(rh, out.proof)
  {
    if |outs| > 0 {
      MatchesMembers(outs[..|outs| - 1], rh, out);
    }
  }

  lemma {:induction false} ValueOfMatches(outs: seq<ChainOutput>, rh: string, start: nat)
    ensures ValueAbove(Matches(outs, rh), rh, start) == ValueAbove(outs, rh, start)
  {
    if |outs| > 0 {
      var last := outs[|outs| - 1];
      var fewer := Matches(outs[..|outs| - 1], rh);
      ValueOfMatches(outs[..|outs| - 1], rh, start);
      assert Opens(rh, last.proof) ==> (fewer + [last])[..|fewer|] == fewer;
      assert !Opens(rh, last.proof) ==> Matches(outs, rh) == fewer;
    }
  }

  /** The account's unspent rows above its birthday. */
  function LiveAbove(db: Db, rh: string): set<string>
    requires rh in db.accounts
  {
    set c | c in UnspentOf(db.outputs, rh) && db.outputs[c].height > db.accounts[rh].start
  }

  /** Above the birthday, the stored unspent outputs and their total are those of the on-demand scan. */
  ghost predicate AgreesWithScan(db: Db, chain: Chain, rh: string) {
    rh in db.accounts &&
    var start := db.accounts[rh].start;
    var scan := StatelessScan(chain, rh);
    && (forall out :: out in scan && out.height > start ==>
          out.commit in LiveAbove(db, rh) && Opens(rh, out.proof)
            && db.outputs[out.commit] == NewRow(out, rh, Found(rh, out.proof)))
    && (forall c :: c in LiveAbove(db, rh) ==> exists out :: out in scan && out.height > start && out.commit == c)
    && Total(db.outputs, LiveAbove(db, rh)) == ValueAbove(scan, rh, start)
  }

  lemma ScanMembers(chain: Chain, rh: string, out: ChainOutput)
    ensures out in StatelessScan(chain, rh) <==> chain.Funds(rh, out.mmrIndex) && out == chain.Output(out.mmrIndex)
  {
    MatchesMembers(chain.UnspentRange(1, chain.Size()), rh, out);
    RangeMembers(chain, 1, chain.Size(), out);
  }

  /** A live row above the birthday stands for a live output of the chain. */
  lemma LiveRowIsFunds(db: Db, chain: Chain, rh: string, c: string)
    requires Grounded(db, chain) && Settled(db, chain) && rh in db.accounts && c in LiveAbove(db, rh)
    ensures var i := db.outputs[c].mmrIndex;
            chain.Funds(rh, i) && chain.At(i).commit == c && chain.At(i).height > db.accounts[rh].start
  {
    assert RowTrue(chain, c, db.outputs[c]);
    assert chain.Live(c);
  }

  lemma FundsIsLiveRow(db: Db, chain: Chain, rh: string, i: nat)
    requires Grounded(db, chain) && FullyStored(db, chain, rh)
    requires chain.Funds(rh, i) && chain.At(i).height > db.accounts[rh].start
    ensures var c := chain.At(i).commit;
            c in LiveAbove(db, rh) && db.outputs[c] == NewRow(chain.Output(i), rh, Found(rh, chain.At(i).proof))
  {
    assert !Missing(db, chain, rh, i);
    StoredIsLiveRow(db, chain, rh, i);
    var c := chain.At(i).commit;
    assert RowTrue(chain, c, db.outputs[c]) && SpendTrue(chain, db.outputs[c]);
  }

  function LiveUpTo(db: Db, rh: string, hi: nat): (cs: set<string>)
    requires rh in db.accounts
    ensures cs <= db.outputs.Keys
  {
    set c | c in LiveAbove(db, rh) && db.outputs[c].mmrIndex <= hi
  }

  /** The stored row at an index is that of the live output there, if it is this account's. */
  lemma LiveAtIndex(db: Db, chain: Chain, rh: string, i: nat, c: string)
    requires Grounded(db, chain) && Settled(db, chain) && FullyStored(db, chain, rh) && chain.Has(i)
    ensures c in LiveAbove(db, rh) && db.outputs[c].mmrIndex == i <==>
            chain.Funds(rh, i) && chain.At(i).height > db.accounts[rh].start && chain.At(i).commit == c
  {
    assert rh in db.accounts;
    hide RewindOutput; hide Grounded; hide FullyStored; hide Settled; hide LiveAbove; hide UnspentOf;
    if c in LiveAbove(db, rh) {
      LiveRowIsFunds(db, chain, rh, c);
    }
    if chain.Funds(rh, i) && chain.At(i).height > db.accounts[rh].start {
      FundsIsLiveRow(db, chain, rh, i);
    }
  }

  /** This account owns the live output at this index, and it lies above the birthday. */
  predicate Mine(db: Db, chain: Chain, rh: string, i: nat) {
    rh in db.accounts && chain.Funds(rh, i) && chain.At(i).height > db.accounts[rh].start
  }

  lemma LiveUpToStep(db: Db, chain: Chain, rh: string, hi: nat, c: string)
    requires Grounded(db, chain) && Settled(db, chain) && FullyStored(db, chain, rh) && 0 < hi <= chain.Size()
    ensures c in LiveUpTo(db, rh, hi) <==>
            c in LiveUpTo(db, rh, hi - 1) || (Mine(db, chain, rh, hi) && c == chain.At(hi).commit)
    ensures c in LiveUpTo(db, rh, hi - 1) ==> !(Mine(db, chain, rh, hi) && c == chain.At(hi).commit)
  {
    LiveAtIndex(db, chain, rh, hi, c);
    hide RewindOutput; hide Grounded; hide FullyStored; hide Settled; hide LiveAbove; hide UnspentOf; hide Opens;
  }

  lemma LiveUpToGrows(db: Db, chain: Chain, rh: string, hi: nat)
    requires Grounded(db, chain) && Settled(db, chain) && FullyStored(db, chain, rh) && 0 < hi <= chain.Size()
    ensures !Mine(db, chain, rh, hi) ==> LiveUpTo(db, rh, hi) == LiveUpTo(db, rh, hi - 1)
    ensures Mine(db, chain, rh, hi) ==>
              var c := chain.At(hi).commit;
              c in LiveUpTo(db, rh, hi) && LiveUpTo(db, rh, hi) - {c} == LiveUpTo(db, rh, hi - 1)
  {
    assert rh in db.accounts;
    hide Grounded; hide FullyStored; hide Settled; hide LiveUpTo; hide Mine; hide UnspentOf; hide RewindOutput;
    var few, many := LiveUpTo(db, rh, hi - 1), LiveUpTo(db, rh, hi);
    var mine, last := Mine(db, chain, rh, hi), chain.At(hi).commit;
    forall c ensures (c in many <==> c in few || (mine && c == last)) && (c in few ==> !(mine && c == last)) {
      LiveUpToStep(db, chain, rh, hi, c);
    }
    SetGrows(few, many, mine, last);
  }

  lemma SetGrows<T>(few: set<T>, many: set<T>, grows: bool, last: T)
    requires forall c :: c in many <==> c in few || (grows && c == last)
    requires grows ==> last !in few
    ensures if grows then last in many && many - {last} == few else many == few
  {
  }

  /** What is stored, and what the walk has seen, up to an index. */
  ghost function StoredTo(db: Db, rh: string, hi: nat): nat {
    if rh in db.accounts then Total(db.outputs, LiveUpTo(db, rh, hi)) else 0
  }

  function WalkedTo(db: Db, chain: Chain, rh: string, hi: nat): nat {
    if rh in db.accounts then ValueAbove(chain.UnspentRange(1, hi), rh, db.accounts[rh].start) else 0
  }

  lemma NoneUpToZero(db: Db, chain: Chain, rh: string)
    requires Grounded(db, chain) && Settled(db, chain) && rh in db.accounts
    ensures StoredTo(db, rh, 0) == 0 == WalkedTo(db, chain, rh, 0)
  {
    forall c | c in LiveUpTo(db, rh, 0) ensures false {
      LiveRowIsFunds(db, chain, rh, c);
    }
    assert LiveUpTo(db, rh, 0) == {};
  }

  /** What the output at this index adds to the account's balance. */
  function Worth(db: Db, chain: Chain, rh: string, i: nat): nat {
    if Mine(db, chain, rh, i) then Found(rh, chain.At(i).proof).value else 0
  }

  lemma TotalStep(db: Db, chain: Chain, rh: string, hi: nat)
    requires Grounded(db, chain) && Settled(db, chain) && FullyStored(db, chain, rh) && 0 < hi <= chain.Size()
    ensures StoredTo(db, rh, hi) == StoredTo(db, rh, hi - 1) + Worth(db, chain, rh, hi)
  {
    assert rh in db.accounts;
    hide RewindOutput; hide Grounded; hide FullyStored; hide Settled; hide LiveUpTo; hide LiveAbove; hide UnspentOf;
    hide Total;
    LiveUpToGrows(db, chain, rh, hi);
    if Mine(db, chain, rh, hi) {
      FundsIsLiveRow(db, chain, rh, hi);
      TotalSplit(db.outputs, LiveUpTo(db, rh, hi), chain.At(hi).commit);
    }
  }

  /** The stored total, by index: rows up to `hi` add up to what the walk has seen up to `hi`. */
  lemma {:induction false} TotalUpTo(db: Db, chain: Chain, rh: string, hi: nat)
    requires Grounded(db, chain) && Settled(db, chain) && FullyStored(db, chain, rh) && hi <= chain.Size()
    ensures StoredTo(db, rh, hi) == WalkedTo(db, chain, rh, hi)
  {
    assert rh in db.accounts;
    hide Grounded; hide FullyStored; hide Settled; hide StoredTo; hide WalkedTo; hide Worth;
    if hi == 0 {
      NoneUpToZero(db, chain, rh);
    } else {
      TotalUpTo(db, chain, rh, hi - 1);
      TotalStep(db, chain, rh, hi);
      RangeStep(db, chain, rh, hi);
    }
  }

  lemma RangeStep(db: Db, chain: Chain, rh: string, hi: nat)
    requires 0 < hi <= chain.Size() && rh in db.accounts
    ensures WalkedTo(db, chain, rh, hi) == WalkedTo(db, chain, rh, hi - 1) + Worth(db, chain, rh, hi)
  {
    hide RewindOutput;
    var fewer := chain.UnspentRange(1, hi - 1);
    if chain.Unspent(hi) {
      assert (fewer + [chain.Output(hi)])[..|fewer|] == fewer;
    } else {
      assert chain.UnspentRange(1, hi) == fewer;
    }
  }

  lemma FullyStoredAgrees(db: Db, chain: Chain, rh: string)
    requires Grounded(db, chain) && Settled(db, chain) && FullyStored(db, chain, rh)
    ensures AgreesWithScan(db, chain, rh)
  {
    var scan := StatelessScan(chain, rh);
    forall out | out in scan && out.height > db.accounts[rh].start
      ensures out.commit in LiveAbove(db, rh) && Opens(rh, out.proof)
              && db.outputs[out.commit] == NewRow(out, rh, Found(rh, out.proof))
    {
      ScanMembers(chain, rh, out);
      FundsIsLiveRow(db, chain, rh, out.mmrIndex);
    }
    forall c | c in LiveAbove(db, rh)
      ensures exists out :: out in scan && out.height > db.accounts[rh].start && out.commit == c
      ensures db.outputs[c].mmrIndex <= chain.Size()
    {
      LiveRowIsFunds(db, chain, rh, c);
      ScanMembers(chain, rh, chain.Output(db.outputs[c].mmrIndex));
    }
    assert LiveAbove(db, rh) == LiveUpTo(db, rh, chain.Size());
    TotalUpTo(db, chain, rh, chain.Size());
    ValueOfMatches(chain.UnspentRange(1, chain.Size()), rh, db.accounts[rh].start);
  }

  /** A chain that keeps the checkpoint passes Phase 0. */
  lemma FollowPasses(db: Db, chain: Chain, next: Chain)
    requires Grounded(db, chain) && CheckpointKept(db, chain, next)
    ensures !ReorgSeen(db.cursor, next)
  {
    if db.cursor.Some? {
      assert chain.HashAt(db.PrevTip()) == next.HashAt(db.PrevTip());
    }
  }

  /** What a tick on `next` relies on for this account: it is behind, or whole and revived nothing. */
  ghost predicate Ready(db: Db, chain: Chain, next: Chain, rh: string) {
    db.Behind(rh) || (Whole(db, chain, rh) && RevivesNothing(db, chain, next, rh))
  }

  /**
   Refinement, account by account: after a completed tick on a chain that kept the checkpoint, an account that
   was behind, or had lost nothing, agrees with the on-demand scan if it is caught up.
   */
  lemma TickRefinesScan(db: Db, chain: Chain, next: Chain, rows: seq<AccountRow>, rh: string)
    requires Grounded(db, chain) && Follows(db, chain, next) && ListsAccounts(rows, db.accounts)
    requires rh in db.accounts && Ready(db, chain, next, rh)
    ensures var d := TickOutcome(db, next, rows);
            d.Behind(rh) || (FullyStored(d, next, rh) && AgreesWithScan(d, next, rh))
  {
    hide AgreesWithScan; hide TickOutcome; hide FullyStored; hide Whole; hide RevivesNothing;
    var d := TickOutcome(db, next, rows);
    FollowKeepsGround(db, chain, next);
    if !db.Behind(rh) {
      FollowKeepsWhole(db, chain, next, rh);
    }
    TickKeeps(db, next, rows, rh);
    TickGrounds(db, next, rows);
    if !d.Behind(rh) {
      FullyStoredAgrees(d, next, rh);
    }
  }

  /** The same for a tick as run, registrations landing in it included. */
  lemma CompletedTickAgrees(before: Db, chain: Chain, next: Chain, after: Db, rh: string)
    requires Grounded(before, chain) && Follows(before, chain, next) && TickEffect(before, next, after)
    requires rh in after.accounts && (rh in before.accounts ==> Ready(before, chain, next, rh))
    ensures Grounded(after, next) && CursorAtTip(after, next) && Settled(after, next)
    ensures after.Behind(rh) || AgreesWithScan(after, next, rh)
  {
    hide AgreesWithScan; hide TickOutcome; hide FullyStored; hide Whole; hide RevivesNothing; hide RowsTrue;
    FollowPasses(before, chain, next);
    FollowKeepsGround(before, chain, next);
    var base, rows :| TickLeaves(before, next, base, rows, after);
    var d := TickOutcome(base, next, rows);
    ArrivedBehindKeepsGround(before, next, base);
    TickGrounds(base, next, rows);
    ArrivedBehindKeepsGround(d, next, after);
    assert Settled(after, next);
    TickKeepsNames(base, next, rows);
    if !after.Behind(rh) {
      if rh in base.accounts {
        if !base.Behind(rh) {
          ReadyAtListing(before, chain, next, base, rh);
        }
        TickKeeps(base, next, rows, rh);
        OtherAccounts(d, after, next, rh);
      } else {
        NewcomerStored(after, next, rh);
      }
      FullyStoredAgrees(after, next, rh);
    }
  }

  lemma ReadyAtListing(before: Db, chain: Chain, next: Chain, base: Db, rh: string)
    requires Grounded(before, chain) && Follows(before, chain, next) && Registered(before, base)
    requires rh in base.accounts && !base.Behind(rh) && (rh in before.accounts ==> Ready(before, chain, next, rh))
    ensures Whole(base, next, rh)
  {
    hide Whole; hide RowsTrue; hide AgreeUpTo; hide RewindOutput;
    FollowKeepsGround(before, chain, next);
    if rh in before.accounts {
      FollowKeepsWhole(before, chain, next, rh);
    }
    ArrivedBehindKeeps(before, next, base, rh);
  }

  lemma NewcomerStored(db: Db, chain: Chain, rh: string)
    requires chain.Valid() && CursorAtTip(db, chain) && Unstarted(db, rh) && !db.Behind(rh)
    ensures FullyStored(db, chain, rh)
  {
    hide RewindOutput;
  }

  lemma NooneArrived(before: Db, after: Db)
    requires Registered(before, after) && after.accounts.Keys == before.accounts.Keys
    ensures after == before
  {
    assert after.accounts == before.accounts;
  }

  lemma TickKeepsNames(db: Db, chain: Chain, rows: seq<AccountRow>)
    ensures TickOutcome(db, chain, rows).accounts.Keys == db.accounts.Keys
  {
    hide Settle; hide StoreAll;
    var d := Scanned(db, chain, rows);
    assert d.accounts.Keys == db.accounts.Keys;
    match FirstBehind(rows, db.PrevTip())
    case None =>
    case Some(row) =>
      if row.rewindHash in d.accounts {
        assert d.SetScan(row.rewindHash, chain.Tip()).accounts.Keys == d.accounts.Keys;
      }
  }

  /** A tick in which nobody registered leaves exactly the outcome of one listing of the accounts. */
  lemma UndisturbedTick(before: Db, next: Chain, after: Db)
    requires !ReorgSeen(before.cursor, next) && TickEffect(before, next, after)
             && after.accounts.Keys == before.accounts.Keys
    ensures exists rows :: ListsAccounts(rows, before.accounts) && after == TickOutcome(before, next, rows)
  {
    hide TickOutcome; hide ListsAccounts;
    var base, rows :| TickLeaves(before, next, base, rows, after);
    TickKeepsNames(base, next, rows);
    assert base.accounts.Keys == before.accounts.Keys;
    NooneArrived(before, base);
    NooneArrived(TickOutcome(base, next, rows), after);
  }

  // ---- how soon ----

  function BehindSet(db: Db): set<string> {
    set rh | rh in db.accounts && db.accounts[rh].scan < db.PrevTip()
  }

  lemma ChosenIsBehind(db: Db, rows: seq<AccountRow>)
    requires ListsAccounts(rows, db.accounts)
    ensures Chosen(rows, db.PrevTip()) <= BehindSet(db)
    ensures |Chosen(rows, db.PrevTip())| == if BehindSet(db) == {} then 0 else 1
  {
    ListingSplits(db, rows);
    if FirstBehind(rows, db.PrevTip()).None? {
      assert BehindSet(db) == {};
    }
  }

  lemma BehindAfter(db: Db, chain: Chain, rows: seq<AccountRow>, rh: string)
    requires CursorTrue(db, chain) && ListsAccounts(rows, db.accounts)
    ensures rh in BehindSet(TickOutcome(db, chain, rows)) <==> rh in BehindSet(db) && rh !in Chosen(rows, db.PrevTip())
    ensures rh in db.accounts ==> rh in TickOutcome(db, chain, rows).accounts
                                  && TickOutcome(db, chain, rows).accounts[rh].start == db.accounts[rh].start
  {
    assert db.PrevTip() <= chain.Tip();
    hide StoreAll; hide Settle; hide Chain.UnspentRange; hide ListsAccounts;
    TickKeepsNames(db, chain, rows);
    if rh in db.accounts {
      TickAccount(db, chain, rows, rh);
    }
  }

  /** Each tick brings exactly the first listed account that is behind up to date, and no one falls behind. */
  lemma TickCatchesOne(db: Db, chain: Chain, rows: seq<AccountRow>)
    requires CursorTrue(db, chain) && ListsAccounts(rows, db.accounts)
    ensures var d := TickOutcome(db, chain, rows);
            && d.accounts.Keys == db.accounts.Keys
            && (forall rh :: rh in db.accounts ==> d.accounts[rh].start == db.accounts[rh].start)
            && BehindSet(d) == BehindSet(db) - Chosen(rows, db.PrevTip())
            && |BehindSet(d)| == SaturatingSub(|BehindSet(db)|, 1)
  {
    hide CursorTrue; hide ListsAccounts; hide TickOutcome; hide Chosen; hide BehindSet;
    var chosen := Chosen(rows, db.PrevTip());
    TickKeepsNames(db, chain, rows);
    ChosenIsBehind(db, rows);
    forall rh ensures rh in BehindSet(TickOutcome(db, chain, rows)) <==> rh in BehindSet(db) && rh !in chosen {
      BehindAfter(db, chain, rows, rh);
    }
    forall rh | rh in db.accounts ensures TickOutcome(db, chain, rows).accounts[rh].start == db.accounts[rh].start {
      BehindAfter(db, chain, rows, rh);
    }
    assert BehindSet(TickOutcome(db, chain, rows)) == BehindSet(db) - chosen;
  }

  /**
   Completed ticks in a row, with no registration, rescan or repair between them: growth, or any change
   above the checkpoint.
   */
  ghost predicate QuietTicks(dbs: seq<Db>, chains: seq<Chain>, listings: seq<seq<AccountRow>>) {
    && |dbs| == |chains| == |listings| + 1
    && forall j, k :: 0 <= j && k == j + 1 && k < |dbs| ==>
         && Follows(dbs[j], chains[j], chains[k])
         && ListsAccounts(listings[j], dbs[j].accounts) && dbs[k] == TickOutcome(dbs[j], chains[k], listings[j])
  }

  /** None of the chain changes revives an unstored output of this account once it is caught up. */
  ghost predicate NeverRevives(dbs: seq<Db>, chains: seq<Chain>, rh: string) {
    |dbs| == |chains| &&
    forall j, k :: 0 <= j && k == j + 1 && k < |dbs| ==>
      dbs[j].Behind(rh) || RevivesNothing(dbs[j], chains[j], chains[k], rh)
  }

  /** What holds after `k` quiet ticks from `first`. */
  ghost predicate AfterQuiet(first: Db, db: Db, chain: Chain, k: nat) {
    && Grounded(db, chain) && db.accounts.Keys == first.accounts.Keys
    && (forall rh :: rh in first.accounts ==> db.accounts[rh].start == first.accounts[rh].start)
    && |BehindSet(db)| == SaturatingSub(|BehindSet(first)|, k)
    && (k > 0 ==> Settled(db, chain))
  }

  lemma QuietTick(first: Db, db: Db, chain: Chain, k: nat, next: Chain, rows: seq<AccountRow>)
    requires AfterQuiet(first, db, chain, k) && Follows(db, chain, next) && ListsAccounts(rows, db.accounts)
    ensures AfterQuiet(first, TickOutcome(db, next, rows), next, k + 1)
  {
    hide TickOutcome; hide BehindSet; hide Settled; hide ListsAccounts; hide RowsTrue; hide ScanBounded;
    hide CheckpointKept; hide AboveStillTrue;
    FollowKeepsGround(db, chain, next);
    TickGrounds(db, next, rows);
    TickCatchesOne(db, next, rows);
  }

  lemma {:induction false} QuietTicksCount(dbs: seq<Db>, chains: seq<Chain>, listings: seq<seq<AccountRow>>, k: nat)
    requires QuietTicks(dbs, chains, listings) && Grounded(dbs[0], chains[0]) && k < |dbs|
    ensures AfterQuiet(dbs[0], dbs[k], chains[k], k)
  {
    hide Grounded; hide TickOutcome; hide BehindSet; hide Settled; hide Follows; hide ListsAccounts;
    if k > 0 {
      QuietTicksCount(dbs, chains, listings, k - 1);
      assert Follows(dbs[k - 1], chains[k - 1], chains[k]);
      QuietTick(dbs[0], dbs[k - 1], chains[k - 1], k - 1, chains[k], listings[k - 1]);
    }
  }

  /** An account behind or whole at the start is, after every quiet tick, behind or has everything. */
  lemma {:induction false} QuietAccount(dbs: seq<Db>, chains: seq<Chain>, listings: seq<seq<AccountRow>>, k: nat,
                                      rh: string)
    requires QuietTicks(dbs, chains, listings) && Grounded(dbs[0], chains[0]) && NeverRevives(dbs, chains, rh)
    requires rh in dbs[0].accounts && (dbs[0].Behind(rh) || Whole(dbs[0], chains[0], rh)) && 0 < k < |dbs|
    ensures dbs[k].Behind(rh) || (FullyStored(dbs[k], chains[k], rh) && AgreesWithScan(dbs[k], chains[k], rh))
    decreases k
  {
    hide Grounded; hide TickOutcome; hide Whole; hide FullyStored; hide AgreesWithScan; hide Follows;
    hide ListsAccounts; hide BehindSet; hide Settled; hide RevivesNothing;
    QuietTicksCount(dbs, chains, listings, k - 1);
    if k > 1 {
      QuietAccount(dbs, chains, listings, k - 1, rh);
      if !dbs[k - 1].Behind(rh) {
        StoredIsWhole(dbs[k - 1], chains[k - 1], rh);
      }
    }
    assert Follows(dbs[k - 1], chains[k - 1], chains[k]);
    assert dbs[k - 1].Behind(rh) || RevivesNothing(dbs[k - 1], chains[k - 1], chains[k], rh);
    TickRefinesScan(dbs[k - 1], chains[k - 1], chains[k], listings[k - 1], rh);
  }

  lemma StoredIsWhole(db: Db, chain: Chain, rh: string)
    requires FullyStored(db, chain, rh)
    ensures Whole(db, chain, rh)
  {
  }

  /**
   Convergence, account by account: the number of accounts behind falls by one a tick; an account behind or whole
   at the start, whatever the others lost, agrees with the on-demand scan by the time it reaches zero, and keeps
   agreeing.
   */
  lemma Converges(dbs: seq<Db>, chains: seq<Chain>, listings: seq<seq<AccountRow>>, k: nat, rh: string)
    requires QuietTicks(dbs, chains, listings) && Grounded(dbs[0], chains[0]) && NeverRevives(dbs, chains, rh)
    requires rh in dbs[0].accounts && (dbs[0].Behind(rh) || Whole(dbs[0], chains[0], rh)) && 0 < k < |dbs|
    ensures |BehindSet(dbs[k])| == SaturatingSub(|BehindSet(dbs[0])|, k)
    ensures |BehindSet(dbs[0])| <= k ==>
              AgreesWithScan(dbs[k], chains[k], rh) && dbs[k].accounts[rh].start == dbs[0].accounts[rh].start
  {
    hide Grounded; hide Settled; hide FullyStored; hide QuietTicks; hide AgreesWithScan; hide Whole; hide NeverRevives;
    assert |chains| == |dbs| by {
      SameLength(dbs, chains, listings);
    }
    QuietTicksCount(dbs, chains, listings, k);
    QuietAccount(dbs, chains, listings, k, rh);
    if |BehindSet(dbs[0])| <= k {
      assert rh !in BehindSet(dbs[k]);
    }
  }

  lemma SameLength(dbs: seq<Db>, chains: seq<Chain>, listings: seq<seq<AccountRow>>)
    requires QuietTicks(dbs, chains, listings)
    ensures |chains| == |dbs|
  {
  }

  /** Grounded, but for the rows of this account at or above a height, which may be false in any way. */
  ghost predicate GroundedBut(db: Db, chain: Chain, rh: string, height: nat) {
    && chain.Valid() && CursorTrue(db, chain) && ScanBounded(db)
    && forall c :: c in db.outputs && !(db.outputs[c].owner == rh && db.outputs[c].height >= height) ==>
         RowTrue(chain, c, db.outputs[c]) && SpendTrue(chain, db.outputs[c])
  }

  /**
   Whatever was missing before, for whatever reason, and whatever was wrong in the rows the rescan deletes: a backwards
   rescan and as many ticks as accounts behind it bring the account exactly to the chain's view, every row true and
   every flag exact.
   */
  lemma RescanRestores(db: Db, chain: Chain, rh: string, height: nat,
                       dbs: seq<Db>, chains: seq<Chain>, listings: seq<seq<AccountRow>>, k: nat)
    requires GroundedBut(db, chain, rh, height) && rh in db.accounts && height < db.accounts[rh].scan
    requires QuietTicks(dbs, chains, listings) && dbs[0] == db.Rescan(rh, height) && chains[0] == chain
    requires NeverRevives(dbs, chains, rh) && |BehindSet(db)| + 1 <= k < |dbs|
    ensures AgreesWithScan(dbs[k], chains[k], rh) && dbs[k].accounts[rh].start == db.accounts[rh].start
    ensures RowsTrue(dbs[k], chains[k])
    ensures forall c :: c in dbs[k].outputs ==> (dbs[k].outputs[c].spent <==> !chains[k].Live(c))
  {
    RescanReadies(db, chain, rh, height);
    hide QuietTicks; hide NeverRevives; hide AgreesWithScan; hide Whole; hide GroundedBut; hide RowsTrue;
    assert BehindSet(dbs[0]) <= BehindSet(db) + {rh};
    SubsetSize(BehindSet(dbs[0]), BehindSet(db) + {rh});
    Converges(dbs, chains, listings, k, rh);
    SameLength(dbs, chains, listings);
    QuietTicksCount(dbs, chains, listings, k);
    FlagsExact(dbs[k], chains[k]);
  }

  lemma RescanReadies(db: Db, chain: Chain, rh: string, height: nat)
    requires GroundedBut(db, chain, rh, height) && rh in db.accounts && height < db.accounts[rh].scan
    ensures var d := db.Rescan(rh, height); Grounded(d, chain) && (d.Behind(rh) || Whole(d, chain, rh))
  {
    hide RewindOutput; hide RowTrue; hide SpendTrue;
    var d := db.Rescan(rh, height);
    assert RowsTrue(d, chain);
    assert CursorTrue(d, chain);
    if !d.Behind(rh) {
      UnstartedIsWhole(d, chain, rh);
    }
  }

  lemma SubsetSize<T>(a: set<T>, b: set<T>)
    requires a <= b
    ensures |a| <= |b|
  {
    assert b == a + (b - a);
  }
}
