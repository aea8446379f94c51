/** Reorganizations: detection, repair, and the next tick after a repair. */
module Reorgs {
  import opened Basics
  import opened Rewind
  import opened Chains
  import opened Tables
  import opened Protocol
  import opened Consistency
  import opened Outcomes
  import opened Stores
  import opened Convergence

  /** A block hash identifies the whole chain up to it. */
  ghost predicate HashesIdentify(a: Chain, b: Chain) {
    forall h: nat :: h <= a.Tip() && h <= b.Tip() && a.HashAt(h) == b.HashAt(h) ==> AgreeUpTo(a, b, h)
  }

  /** If a block hash identifies the chain up to it, Phase 0 is exactly the test whether the checkpoint stands. */
  lemma PhaseZeroDecides(db: Db, chain: Chain, next: Chain)
    requires CursorTrue(db, chain) && next.Valid() && HashesIdentify(chain, next) && db.PrevTip() > 0
    ensures ReorgSeen(db.cursor, next) <==> !AgreeUpTo(chain, next, db.PrevTip())
  {
    if AgreeUpTo(chain, next, db.PrevTip()) {
      assert chain.HashAt(db.PrevTip()) == next.HashAt(db.PrevTip());
    }
  }

  /** With the checkpoint at the tip last read, it is exactly the test for mere growth. */
  lemma CheckpointDecides(db: Db, chain: Chain, next: Chain)
    requires CursorTrue(db, chain) && next.Valid() && HashesIdentify(chain, next)
    requires db.PrevTip() == chain.Tip() > 0
    ensures ReorgSeen(db.cursor, next) <==> !Extends(chain, next)
  {
    PhaseZeroDecides(db, chain, next);
  }

  // ---- chains that keep the checkpoint ----

  /** Agreeing up to a height is agreeing up to any lower one. */
  lemma AgreeBelow(a: Chain, b: Chain, h: nat, low: nat)
    requires AgreeUpTo(a, b, h) && low <= h
    ensures AgreeUpTo(a, b, low)
  {
    forall i: nat ensures SharesLeaf(a, b, i, low) && SharesLeaf(b, a, i, low) {
      assert SharesLeaf(a, b, i, h) && SharesLeaf(b, a, i, h);
    }
  }

  /** Growth is harmless to every account. */
  lemma GrowthFollows(db: Db, chain: Chain, next: Chain)
    requires Grounded(db, chain) && next.Valid() && Extends(chain, next)
    ensures Follows(db, chain, next)
    ensures forall rh :: RevivesNothing(db, chain, next, rh) && RevivesOnlyStored(db, chain, next, rh)
  {
    hide RewindOutput;
    AgreeBelow(chain, next, chain.Tip(), db.PrevTip());
    forall c | c in db.outputs ensures RowTrue(next, c, db.outputs[c]) && SpendTrue(next, db.outputs[c]) {
      assert RowTrue(chain, c, db.outputs[c]) && SpendTrue(chain, db.outputs[c]);
      ExtendsKeepsLeaf(chain, next, db.outputs[c].mmrIndex);
    }
    forall rh, i: nat | Missing(db, next, rh, i) ensures i !in chain.spentAt {
      if i in chain.spentAt {
        ExtendsKeepsLeaf(chain, next, i);
      }
    }
  }

  /**
   Exactly: on a chain that keeps the checkpoint, rows and flags stay true if and only if what was stored above
   the checkpoint is still true, and an account stays whole if and only if nothing of it is revived inside its
   scanned range.
   */
  lemma FollowIff(db: Db, chain: Chain, next: Chain, rh: string)
    requires Grounded(db, chain) && Whole(db, chain, rh) && CheckpointKept(db, chain, next)
    ensures RowsTrue(db, next) <==> AboveStillTrue(db, next)
    ensures Whole(db, next, rh) <==> RevivesNothing(db, chain, next, rh)
  {
    hide RewindOutput; hide RowTrue; hide SpendTrue;
    if AboveStillTrue(db, next) {
      FollowKeepsRows(db, chain, next);
    }
    if RevivesNothing(db, chain, next, rh) {
      FollowKeepsWhole(db, chain, next, rh);
    }
  }

  /**
   After a repair nothing is stored above the checkpoint, so any further reorganization that keeps the
   fork block, back to the old branch included, is followed without another repair.
   */
  lemma AfterRepairFollows(db: Db, mid: Chain, next: Chain)
    requires next.Valid() && AgreeUpTo(mid, next, Fork(mid))
    ensures Follows(ReorgOutcome(db, mid), mid, next)
  {
    hide RewindOutput; hide AgreeUpTo;
  }

  // ---- repairs ----

  /** Whatever happened before, a repair within depth leaves rows, flags, checkpoint and bounds true of the branch. */
  lemma RepairGrounds(db: Db, chain: Chain, next: Chain)
    requires Grounded(db, chain) && ForksWithinDepth(db, chain, next)
    ensures Grounded(ReorgOutcome(db, next), next)
  {
    hide RewindOutput; hide RowTrue; hide SpendTrue; hide AgreeUpTo;
    var fork := Fork(next);
    RollBackKeepsRows(db, chain, fork);
    CutRowsCross(db.Rollback(fork), chain, next, fork);
    assert RowsTrue(ReorgOutcome(db, next), next) by {
      assert RowsTrue(db.Rollback(fork), next);
    }
    ForkOfAgreed(chain, next, fork);
    SeatedCursorTrue(db.Rollback(fork).ClampScans(fork), next, fork);
  }

  lemma RepairIsReseat(db: Db, chain: Chain, next: Chain, rh: string)
    requires Grounded(db, chain) && Honest(db, chain, rh)
    requires ForksWithinDepth(db, chain, next) && RevivesOnlyStored(db, chain, next, rh)
    ensures Whole(ReorgOutcome(db, next), next, rh)
  {
    hide RewindOutput; hide RowsTrue; hide AgreeUpTo; hide RevivesOnlyStored;
    var fork := Fork(next);
    var ready, d := db.Rollback(fork).ClampScans(fork), ReorgOutcome(db, next);
    RollBackIsReady(db, chain, next, rh);
    forall i: nat | Missing(d, next, rh, i)
      ensures next.At(i).height >= d.accounts[rh].scan && (d.CaughtUp(rh) ==> i > d.ScannedIndex())
    {
      assert Missing(ready, next, rh, i);
      FirstIndexCuts(next, fork, i);
    }
  }

  /**
   The repair makes an account whole on the new branch exactly when the branch revives no output of it, inside
   its scanned range, that was already spent when it was first listed.
   */
  lemma RepairIff(db: Db, chain: Chain, next: Chain, rh: string)
    requires Grounded(db, chain) && Honest(db, chain, rh) && ForksWithinDepth(db, chain, next)
    ensures Whole(ReorgOutcome(db, next), next, rh) <==> RevivesOnlyStored(db, chain, next, rh)
  {
    hide RewindOutput; hide AgreeUpTo; hide RowsTrue;
    if RevivesOnlyStored(db, chain, next, rh) {
      RepairIsReseat(db, chain, next, rh);
    }
    var d := ReorgOutcome(db, next);
    if Whole(d, next, rh) {
      forall i: nat | Missing(db, next, rh, i) && i in chain.spentAt
        ensures next.At(i).height >= Min(db.accounts[rh].scan, Fork(next))
      {
        assert Missing(d, next, rh, i);
      }
    }
  }

  /** Spend flags need no such condition: after the repair no row is flagged that the new branch holds unspent. */
  lemma RepairedFlags(db: Db, chain: Chain, next: Chain, c: string)
    requires RowsTrue(db, chain) && ForksWithinDepth(db, chain, next) && c in ReorgOutcome(db, next).outputs
    ensures var row := ReorgOutcome(db, next).outputs[c];
            RowTrue(next, c, row) && SpendTrue(next, row) && (next.Live(c) ==> !row.spent)
  {
    hide RewindOutput;
    var row := db.outputs[c];
    assert RowTrue(chain, c, row) && SpendTrue(chain, row);
    assert SharesLeaf(chain, next, row.mmrIndex, Fork(next));
  }

  /** An account that was honest before a repair is complete below the new cursor afterwards, or behind it. */
  lemma RepairedAccounts(db: Db, chain: Chain, next: Chain, rh: string, i: nat)
    requires Grounded(db, chain) && Honest(db, chain, rh) && rh in db.accounts
    requires ForksWithinDepth(db, chain, next) && RevivesOnlyStored(db, chain, next, rh)
    ensures var d := ReorgOutcome(db, next);
            d.Behind(rh) || (Missing(d, next, rh, i) ==> i > d.ScannedIndex())
  {
    hide RewindOutput;
    RepairIsReseat(db, chain, next, rh);
  }

  /**
   What a repair does, table by table: rows up to the fork stay, 100 blocks below the tip, spends recorded above it are
   undone, scan heights are lowered to it, and the checkpoint is the fork block with the cursor below its first output.
   */
  lemma RepairExactly(db: Db, next: Chain)
    ensures var d := ReorgOutcome(db, next);
            var fork := if next.Tip() >= 100 then next.Tip() - 100 else 0;
            && (forall c :: c in d.outputs <==> c in db.outputs && db.outputs[c].height <= fork)
            && (forall c :: c in d.outputs ==>
                  d.outputs[c] == if db.outputs[c].spentHeight.Some? && db.outputs[c].spentHeight.value > fork
                                  then db.outputs[c].(spent := false, spentHeight := None) else db.outputs[c])
            && d.accounts.Keys == db.accounts.Keys
            && (forall rh :: rh in d.accounts ==>
                  d.accounts[rh].start == db.accounts[rh].start
                    && d.accounts[rh].scan == Min(db.accounts[rh].scan, fork))
            && d.cursor == Some(Cursor(next.FirstIndex(fork) - 1, fork, next.HashAt(fork)))
  {
  }

  /** A spend a completed tick found at or below the fork stays found through a later repair. */
  lemma FoundSpendSurvives(db: Db, chain: Chain, rows: seq<AccountRow>, next: Chain, c: string)
    requires chain.Valid() && RowsTrue(db, chain) && chain.Tip() <= Fork(next)
    requires c in db.outputs && !db.outputs[c].spent && TickLeft(db, chain, rows, c).spent
    ensures c in ReorgOutcome(TickOutcome(db, chain, rows), next).outputs
    ensures ReorgOutcome(TickOutcome(db, chain, rows), next).outputs[c] ==
            db.outputs[c].(spent := true, spentHeight := Some(chain.Tip()))
  {
    hide RewindOutput; hide TickOutcome;
    TickRecordsTip(db, chain, rows, c);
    assert RowTrue(chain, c, db.outputs[c]);
  }

  /** The row of an already stored commitment after a completed tick. */
  function TickLeft(db: Db, chain: Chain, rows: seq<AccountRow>, c: string): Row
    requires c in db.outputs
  {
    TickLeavesRow(db, chain, rows, c);
    TickOutcome(db, chain, rows).outputs[c]
  }

  /** Nothing recorded lies above the fork any more. */
  lemma NothingAboveFork(db: Db, next: Chain)
    ensures var d := ReorgOutcome(db, next);
            && d.PrevTip() == Fork(next)
            && (forall c :: c in d.outputs ==> d.outputs[c].height <= Fork(next))
            && (forall c :: c in d.outputs && d.outputs[c].spentHeight.Some? ==>
              d.outputs[c].spentHeight.value <= Fork(next))
            && (forall rh :: rh in d.accounts ==> d.accounts[rh].scan <= Fork(next))
  {
  }

  /** Extending a chain leaves the first index of an existing block where it was. */
  lemma FirstIndexStable(chain: Chain, next: Chain, h: nat)
    requires chain.Valid() && next.Valid() && Extends(chain, next) && h <= chain.Tip()
    ensures chain.FirstIndex(h) == next.FirstIndex(h)
  {
    var i, j := chain.FirstIndex(h), next.FirstIndex(h);
    if i < j {
      FirstIndexCuts(next, h, i);
      ExtendsOldLeaf(chain, next, i);
      FirstIndexCuts(chain, h, i);
    } else if j < i {
      FirstIndexCuts(chain, h, j);
      ExtendsKeepsLeaf(chain, next, j);
      FirstIndexCuts(next, h, j);
    }
  }

  /**
   No loop: if the chain then only grows, Phase 0 passes and the scan re-pages the fork block and everything above.
   */
  lemma RepairDoesNotLoop(db: Db, next: Chain, later: Chain, i: nat)
    requires next.Valid() && later.Valid() && Extends(next, later)
    ensures var d := ReorgOutcome(db, next);
            && !ReorgSeen(d.cursor, later)
            && d.ScannedIndex() + 1 == later.FirstIndex(Fork(next))
            && (later.Unspent(i) ==>
                  (later.Output(i) in NewOutputs(d, later) <==> later.At(i).height >= Fork(next)))
  {
    var d := ReorgOutcome(db, next);
    assert next.HashAt(Fork(next)) == later.HashAt(Fork(next));
    FirstIndexStable(next, later, Fork(next));
    if later.Unspent(i) {
      FirstIndexCuts(later, Fork(next), i);
      RangeMembers(later, d.ScannedIndex() + 1, later.Size(), later.Output(i));
    }
  }
}
