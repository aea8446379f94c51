/** Where the code does not give the guarantees: the exact condition, a guard that is enough, and a history. */
module Limits {
  import opened Basics
  import opened Text
  import opened Rewind
  import opened Chains
  import opened Nodes
  import opened Tables
  import opened Stores
  import opened Protocol
  import opened Consistency
  import opened Outcomes
  import opened Paging
  import opened Scanner
  import opened Convergence
  import opened Reorgs

  // ---- rescans that are not strictly backwards ----

  /**
   A rescan keeps its account whole exactly if its target is strictly below the scan height, or the account is
   pending anyway, or there is nothing at or above the target to delete. It never harms another account.
   */
  lemma RescanSafeIff(db: Db, chain: Chain, rh: string, height: nat)
    requires Grounded(db, chain) && rh in db.accounts && Whole(db, chain, rh)
    ensures Whole(db.Rescan(rh, height), chain, rh) <==>
            height < db.accounts[rh].scan || db.Behind(rh) || !DeletesNeeded(db, chain, rh, height)
    ensures forall a :: a != rh && Whole(db, chain, a) ==> Whole(db.Rescan(rh, height), chain, a)
  {
    hide RewindOutput; hide Grounded; hide Honest; hide Complete; hide DeletesNeeded;
    if height < db.accounts[rh].scan || db.Behind(rh) || !DeletesNeeded(db, chain, rh, height) {
      RescanKeeps(db, chain, rh, height, rh);
    } else {
      RescanLosesNeeded(db, chain, rh, height);
    }
    forall a | a != rh && Whole(db, chain, a) ensures Whole(db.Rescan(rh, height), chain, a) {
      RescanKeeps(db, chain, rh, height, a);
    }
  }

  lemma RescanLosesNeeded(db: Db, chain: Chain, rh: string, height: nat)
    requires Grounded(db, chain) && db.CaughtUp(rh) && height >= db.accounts[rh].scan
    requires DeletesNeeded(db, chain, rh, height)
    ensures !Complete(db.Rescan(rh, height), chain, rh)
  {
    hide RewindOutput;
    var d := db.Rescan(rh, height);
    var c :| c in db.outputs && db.outputs[c].owner == rh && chain.Live(c)
      && db.outputs[c].mmrIndex <= db.ScannedIndex()
      && db.accounts[rh].start < db.outputs[c].height && height <= db.outputs[c].height;
    assert RowTrue(chain, c, db.outputs[c]);
    assert Missing(d, chain, rh, db.outputs[c].mmrIndex);
  }

  // ---- small histories ----

  function Repeat(s: string, n: nat): seq<string> {
    seq(n, _ => s)
  }

  /** Five nanogrin on path 0/0/0, visible to one wallet. */
  function Coin(rh: string): RangeProof {
    map[rh := Opening(5, Message(0, 3, [0, 0, 0, 0]))]
  }

  function CoinKey(): (keyId: string) {
    HexEncode(Message(0, 3, [0, 0, 0, 0])[3..])
  }

  lemma CoinMessage()
    ensures Recover(5, Message(0, 3, [0, 0, 0, 0])) == Some(Recovered(5, CoinKey(), 0))
  {
    hide HexEncode; hide PathFromBytes; hide PathBytes;
    PathRoundTrip([0, 0, 0, 0]);
    assert Message(0, 3, [0, 0, 0, 0])[4..] == PathBytes([0, 0, 0, 0]);
  }

  lemma CoinOpens()
    ensures Opens("w", Coin("w")) && Found("w", Coin("w")) == Recovered(5, CoinKey(), 0)
    ensures SoleOwner(Coin("w"))
  {
    hide CoinKey; hide Recover;
    CoinMessage();
  }

  function CoinLeaf(height: nat): Leaf {
    Leaf("X", Coin("w"), false, height)
  }

  function CoinRow(height: nat): Row {
    Row("w", 5, height, 1, false, height, CoinKey(), 0, false, None)
  }

  /** One output X of wallet w, created at `height`; `tip` + 1 blocks hashed "a". */
  function OneCoin(height: nat, tip: nat, spentAt: map<nat, nat>): Chain {
    Chain(Repeat("a", tip + 1), [CoinLeaf(height)], spentAt)
  }

  lemma OneCoinValid(height: nat, tip: nat, spentAt: map<nat, nat>)
    requires height <= tip < TWO_TO_THE_63 - 1
    requires forall i: nat :: i in spentAt ==> i == 1 && height <= spentAt[i] <= tip
    ensures OneCoin(height, tip, spentAt).Valid() && OneCoin(height, tip, spentAt).Tip() == tip
  {
    hide RewindOutput; hide Coin; hide CoinKey;
    CoinOpens();
  }

  /** A database caching X alone, for wallet w, with the cursor on the trunk at `tip`. */
  function OneRow(height: nat, scan: nat, index: nat, tip: nat): Db {
    Db(map["w" := Account(0, scan)], map["X" := CoinRow(height)], Some(Cursor(index, tip, "a")))
  }

  lemma OneRowTrue(height: nat, scan: nat, index: nat, tip: nat, top: nat)
    requires height <= top && scan <= tip <= top < TWO_TO_THE_63 - 1
    requires index <= 1 && (index == 1 ==> height <= tip)
    ensures TablesTrue(OneRow(height, scan, index, tip), OneCoin(height, top, map[]))
  {
    hide RewindOutput; hide Coin; hide CoinKey;
    CoinOpens();
    OneCoinValid(height, top, map[]);
    assert RowTrue(OneCoin(height, top, map[]), "X", CoinRow(height));
  }

  /** Rescanning at the scan height deletes the newest block's output for good: the next tick does not bring it back. */
  lemma RescanAtScanHeightLoses()
    ensures var chain := OneCoin(1, 1, map[]);
            var db := OneRow(1, 1, 1, 1);
            var d := db.Rescan("w", 1);
            && TablesTrue(db, chain) && d.CaughtUp("w")
            && chain.Funds("w", 1)
            && "X" !in TickOutcome(d, chain, [AccountRow("w", 0, 1)]).outputs
  {
    hide RewindOutput; hide Coin; hide CoinKey;
    CoinOpens();
    var chain := OneCoin(1, 1, map[]);
    var db := OneRow(1, 1, 1, 1);
    OneRowTrue(1, 1, 1, 1, 1);
    var d := db.Rescan("w", 1);
    assert NewOutputs(d, chain) == [];
    assert StoreAll(d.outputs, NewOutputs(d, chain), CaughtUpNames([AccountRow("w", 0, 1)], 1)) == map[];
  }

  // ---- repairs that reach less far back than the change ----

  /** What keeps a row kept by the repair true, when the chains agree only up to `a`. */
  ghost predicate SurvivesRepair(chain: Chain, next: Chain, a: nat, c: string, row: Row) {
    && (row.height > a ==> RowTrue(next, c, row))
    && (row.spent && !SpentAbove(row, Fork(next)) &&
        row.mmrIndex in chain.spentAt && chain.spentAt[row.mmrIndex] > a ==>
          SpendTrue(next, row))
  }

  lemma RepairedRowIff(chain: Chain, next: Chain, a: nat, c: string, row: Row)
    requires chain.Valid() && AgreeUpTo(chain, next, a) && RowTrue(chain, c, row) && SpendTrue(chain, row)
    ensures var kept := RollbackRow(row, Fork(next));
            RowTrue(next, c, kept) && SpendTrue(next, kept) <==> SurvivesRepair(chain, next, a, c, row)
  {
    hide RewindOutput;
    assert SharesLeaf(chain, next, row.mmrIndex, a);
  }

  /**
   Exactly when a repair leaves true rows and flags, for chains that agree up to any height: every kept row
   from above that height must be true of the new chain, and so must every kept flag for a spend above it.
   */
  lemma LateRepairIff(db: Db, chain: Chain, next: Chain, a: nat)
    requires chain.Valid() && RowsTrue(db, chain) && AgreeUpTo(chain, next, a)
    ensures RowsTrue(ReorgOutcome(db, next), next) <==>
            forall c :: c in db.outputs && db.outputs[c].height <= Fork(next) ==>
              SurvivesRepair(chain, next, a, c, db.outputs[c])
  {
    hide RewindOutput; hide RowTrue; hide SpendTrue; hide SurvivesRepair; hide AgreeUpTo; hide Chain.Valid;
    var d := ReorgOutcome(db, next);
    forall c | c in db.outputs && db.outputs[c].height <= Fork(next)
      ensures c in d.outputs && (RowTrue(next, c, d.outputs[c]) && SpendTrue(next, d.outputs[c]) <==>
                                 SurvivesRepair(chain, next, a, c, db.outputs[c]))
    {
      RepairedRowIff(chain, next, a, c, db.outputs[c]);
    }
  }

  /** So it is enough that the fork is no higher than the last common block. */
  lemma RepairDeepEnough(db: Db, chain: Chain, next: Chain, a: nat)
    requires chain.Valid() && RowsTrue(db, chain) && AgreeUpTo(chain, next, a) && Fork(next) <= a
    ensures RowsTrue(ReorgOutcome(db, next), next)
  {
    hide RewindOutput; hide RowTrue; hide SpendTrue; hide AgreeUpTo; hide ReorgOutcome;
    forall c | c in db.outputs && db.outputs[c].height <= Fork(next)
      ensures SurvivesRepair(chain, next, a, c, db.outputs[c])
    {
      assert SpendTrue(chain, db.outputs[c]);
      if db.outputs[c].spent && !SpentAbove(db.outputs[c], Fork(next)) {
        KeptSpendIsLow(chain, db.outputs[c], Fork(next));
      }
    }
    LateRepairIff(db, chain, next, a);
  }

  lemma KeptSpendIsLow(chain: Chain, row: Row, fork: nat)
    requires SpendTrue(chain, row) && row.spent && !SpentAbove(row, fork)
    ensures row.mmrIndex in chain.spentAt && chain.spentAt[row.mmrIndex] <= fork
  {
  }

  /** X, found spent in block 1, and a chain that replaced block 1 without the spend. */
  function SpentCache(): Db {
    Db(map["w" := Account(0, 1)], map["X" := Spend(CoinRow(0), 1)], Some(Cursor(1, 1, "a")))
  }

  function Unspending(): Chain {
    Chain(["a"] + Repeat("b", 102), [CoinLeaf(0)], map[])
  }

  /**
   A one-block reorganization found more than 100 blocks late: the fork lies above the checkpoint, the
   orphaned spend is not undone, and X stays flagged spent although the chain holds it.
   */
  lemma LateShallowReorgLosesUnspend()
    ensures TablesTrue(SpentCache(), OneCoin(0, 1, map[1 := 1])) && Unspending().Valid()
    ensures AgreeUpTo(OneCoin(0, 1, map[1 := 1]), Unspending(), 0) && ReorgSeen(SpentCache().cursor, Unspending())
    ensures Fork(Unspending()) > SpentCache().PrevTip()
    ensures var d := ReorgOutcome(SpentCache(), Unspending());
            Unspending().Live("X") && "X" in d.outputs && d.outputs["X"].spent
              && Settle(d.outputs, Unspending())["X"].spent
  {
    hide RewindOutput; hide Coin; hide CoinKey;
    CoinOpens();
    hide TablesTrue; hide Chain.Valid;
    var chain, next := OneCoin(0, 1, map[1 := 1]), Unspending();
    SpentCacheTrue();
    UnspendingValid();
    assert next.Unspent(1) && next.Tip() == 102;
    forall i: nat ensures SharesLeaf(chain, next, i, 0) && SharesLeaf(next, chain, i, 0) {
    }
  }

  lemma UnspendingValid()
    ensures Unspending().Valid()
  {
    hide RewindOutput; hide Coin; hide CoinKey;
    CoinOpens();
  }

  lemma SpentCacheTrue()
    ensures TablesTrue(SpentCache(), OneCoin(0, 1, map[1 := 1]))
  {
    hide Chain.Valid;
    hide RewindOutput; hide Coin; hide CoinKey;
    CoinOpens();
    var chain := OneCoin(0, 1, map[1 := 1]);
    OneCoinValid(0, 1, map[1 := 1]);
    assert RowTrue(chain, "X", Spend(CoinRow(0), 1)) && SpendTrue(chain, Spend(CoinRow(0), 1));
  }

  // ---- a failure between the rollback and the clamp ----

  /**
   A row of the account that the first rollback, to `fork`, deleted and the second repair's clamp puts out of reach.
   */
  ghost predicate LostBetween(db: Db, later: Chain, fork: nat, rh: string) {
    rh in db.accounts &&
    exists c :: c in db.outputs && db.outputs[c].owner == rh && later.Live(c)
      && db.accounts[rh].start < db.outputs[c].height
      && fork < db.outputs[c].height < Min(db.accounts[rh].scan, Fork(later))
  }

  /**
   Exactly when a rollback to `fork` that stopped before its clamp does an account no harm once a later repair
   completes: no live row above its birthday lies between that fork and the heights the later repair scans again.
   */
  lemma UnclampedRepairIff(db: Db, chain: Chain, fork: nat, later: Chain, rh: string)
    requires Grounded(db, chain) && Honest(db, chain, rh)
    requires ForksWithinDepth(db, chain, later) && RevivesOnlyStored(db, chain, later, rh)
    ensures Whole(ReorgOutcome(db.Rollback(fork), later), later, rh) <==> !LostBetween(db, later, fork, rh)
  {
    hide RewindOutput; hide LostBetween; hide Whole; hide Grounded; hide Honest;
    hide ForksWithinDepth; hide RevivesOnlyStored;
    RepairIsReseat(db, chain, later, rh);
    RepairGrounds(db, chain, later);
    if LostBetween(db, later, fork, rh) {
      LostBetweenIsLost(db, later, fork, rh);
    } else {
      NoneLostBetween(db, later, fork, rh);
    }
  }

  lemma LostBetweenIsLost(db: Db, later: Chain, fork: nat, rh: string)
    requires Grounded(ReorgOutcome(db, later), later) && LostBetween(db, later, fork, rh)
    ensures !Whole(ReorgOutcome(db.Rollback(fork), later), later, rh)
  {
    hide RewindOutput; hide RowsTrue; hide CursorTrue; hide Complete; hide ScanBounded;
    var c :| c in db.outputs && db.outputs[c].owner == rh && later.Live(c)
      && db.accounts[rh].start < db.outputs[c].height
      && fork < db.outputs[c].height < Min(db.accounts[rh].scan, Fork(later));
    RepairedRowIsThere(db, later, c);
    assert Missing(ReorgOutcome(db.Rollback(fork), later), later, rh, db.outputs[c].mmrIndex);
  }

  lemma RepairedRowIsThere(db: Db, later: Chain, c: string)
    requires later.Valid() && RowsTrue(ReorgOutcome(db, later), later)
    requires c in db.outputs && db.outputs[c].height <= Fork(later) && later.Live(c)
    ensures var row := db.outputs[c];
            later.Funds(row.owner, row.mmrIndex) && later.At(row.mmrIndex).commit == c
            && later.At(row.mmrIndex).height == row.height
  {
    hide RewindOutput;
    assert RowTrue(later, c, ReorgOutcome(db, later).outputs[c]);
  }

  lemma NoneLostBetween(db: Db, later: Chain, fork: nat, rh: string)
    requires Grounded(ReorgOutcome(db, later), later) && Whole(ReorgOutcome(db, later), later, rh)
    requires !LostBetween(db, later, fork, rh)
    ensures Whole(ReorgOutcome(db.Rollback(fork), later), later, rh)
  {
    hide RewindOutput; hide LostBetween; hide RowsTrue;
    var d := ReorgOutcome(db.Rollback(fork), later);
    forall i: nat | Missing(d, later, rh, i)
      ensures later.At(i).height >= d.accounts[rh].scan && (d.CaughtUp(rh) ==> i > d.ScannedIndex())
    {
      MissingBetween(db, later, fork, rh, i);
      FirstIndexCuts(later, Fork(later), i);
    }
  }

  /** What is missing after both rollbacks is in no scanned range. */
  lemma MissingBetween(db: Db, later: Chain, fork: nat, rh: string, i: nat)
    requires Grounded(ReorgOutcome(db, later), later) && Whole(ReorgOutcome(db, later), later, rh)
    requires !LostBetween(db, later, fork, rh) && Missing(ReorgOutcome(db.Rollback(fork), later), later, rh, i)
    ensures later.At(i).height >= Min(db.accounts[rh].scan, Fork(later))
  {
    hide RewindOutput; hide CursorTrue; hide ScanBounded; hide Complete;
    var full := ReorgOutcome(db, later);
    var c := later.At(i).commit;
    if c in full.outputs {
      assert RowTrue(later, c, full.outputs[c]);
      assert SoleOwner(later.At(i).proof);
      assert later.Live(c);
    } else {
      assert Missing(full, later, rh, i);
    }
  }

  /** It is enough that the later fork, or the account's scan height, lies at most one block above the first fork. */
  lemma UnclampedSafe(db: Db, chain: Chain, fork: nat, later: Chain, rh: string)
    requires Grounded(db, chain) && Honest(db, chain, rh)
    requires ForksWithinDepth(db, chain, later) && RevivesOnlyStored(db, chain, later, rh)
    requires rh in db.accounts ==> Min(db.accounts[rh].scan, Fork(later)) <= fork + 1
    ensures Whole(ReorgOutcome(db.Rollback(fork), later), later, rh)
  {
    hide Whole; hide Grounded; hide Honest; hide ForksWithinDepth; hide RevivesOnlyStored; hide ReorgOutcome;
    UnclampedRepairIff(db, chain, fork, later, rh);
  }

  /** A row of the account that the rollback deleted and that a pass without any repair does not look for. */
  ghost predicate LostAbove(db: Db, next: Chain, fork: nat, rh: string) {
    rh in db.accounts &&
    exists c :: c in db.outputs && db.outputs[c].owner == rh && next.Live(c)
      && db.accounts[rh].start < db.outputs[c].height && fork < db.outputs[c].height
      && (db.outputs[c].height < db.accounts[rh].scan ||
          (db.CaughtUp(rh) && db.outputs[c].mmrIndex <= db.ScannedIndex()))
  }

  /**
   Exactly when a rollback that stopped before its clamp does an account no harm if the next pass finds the
   checkpoint back in place: no live row above its birthday was deleted that its scan height, or the cursor for a
   caught-up account, still claims.
   */
  lemma UnclampedFollowIff(db: Db, chain: Chain, fork: nat, next: Chain, rh: string)
    requires Grounded(db, chain) && Whole(db, chain, rh)
    requires Follows(db, chain, next) && RevivesNothing(db, chain, next, rh)
    ensures RowsTrue(db.Rollback(fork), next)
    ensures Whole(db.Rollback(fork), next, rh) <==> !LostAbove(db, next, fork, rh)
  {
    hide RewindOutput; hide LostAbove; hide Whole; hide RowsTrue; hide RevivesNothing; hide Follows;
    FollowKeepsGround(db, chain, next);
    FollowMeans(db, chain, next);
    FollowKeepsWhole(db, chain, next, rh);
    RollBackKeepsRows(db, next, fork);
    if LostAbove(db, next, fork, rh) {
      LostAboveIsLost(db, next, fork, rh);
    } else {
      NoneLostAbove(db, next, fork, rh);
    }
  }

  lemma FollowMeans(db: Db, chain: Chain, next: Chain)
    requires Follows(db, chain, next)
    ensures CheckpointKept(db, chain, next)
  {
  }

  lemma LostAboveIsLost(db: Db, next: Chain, fork: nat, rh: string)
    requires Grounded(db, next) && LostAbove(db, next, fork, rh)
    ensures !Whole(db.Rollback(fork), next, rh)
  {
    hide RewindOutput; hide CursorTrue; hide ScanBounded;
    var c :| c in db.outputs && db.outputs[c].owner == rh && next.Live(c)
      && db.accounts[rh].start < db.outputs[c].height && fork < db.outputs[c].height
      && (db.outputs[c].height < db.accounts[rh].scan ||
          (db.CaughtUp(rh) && db.outputs[c].mmrIndex <= db.ScannedIndex()));
    assert RowTrue(next, c, db.outputs[c]);
    assert Missing(db.Rollback(fork), next, rh, db.outputs[c].mmrIndex);
  }

  lemma NoneLostAbove(db: Db, next: Chain, fork: nat, rh: string)
    requires Grounded(db, next) && Whole(db, next, rh) && !LostAbove(db, next, fork, rh)
    ensures Whole(db.Rollback(fork), next, rh)
  {
    hide RewindOutput; hide CursorTrue; hide ScanBounded;
    var d := db.Rollback(fork);
    forall i: nat | Missing(d, next, rh, i)
      ensures next.At(i).height >= d.accounts[rh].scan && (d.CaughtUp(rh) ==> i > d.ScannedIndex())
    {
      var c := next.At(i).commit;
      if c in db.outputs {
        assert RowTrue(next, c, db.outputs[c]);
        assert SoleOwner(next.At(i).proof);
        assert next.Live(c);
      } else {
        assert Missing(db, next, rh, i);
      }
    }
  }

  /** It is enough that the account is pending and scanned at most one block above the fork, or has nothing to miss. */
  lemma UnclampedFollowSafe(db: Db, chain: Chain, fork: nat, next: Chain, rh: string)
    requires Grounded(db, chain) && Whole(db, chain, rh)
    requires Follows(db, chain, next) && RevivesNothing(db, chain, next, rh)
    requires Unstarted(db, rh) || (db.Behind(rh) && db.accounts[rh].scan <= fork + 1)
    ensures Whole(db.Rollback(fork), next, rh)
  {
    hide Grounded; hide Follows; hide RevivesNothing; hide Honest; hide Complete;
    if Unstarted(db, rh) {
      FollowKeepsGround(db, chain, next);
      UnstartedSurvives(db, next, fork, rh);
    } else {
      UnclampedFollowIff(db, chain, fork, next, rh);
    }
  }

  lemma UnstartedSurvives(db: Db, next: Chain, fork: nat, rh: string)
    requires Grounded(db, next) && Unstarted(db, rh)
    ensures Whole(db.Rollback(fork), next, rh)
  {
    hide RowsTrue; hide Honest; hide Complete; hide Chain.Valid;
    assert CursorTrue(db.Rollback(fork), next);
    UnstartedIsWhole(db.Rollback(fork), next, rh);
  }

  /** The chain X was found on, and a branch leaving it after block 4, both with X in block 2. */
  function Trunk(): Chain {
    OneCoin(2, 50, map[])
  }

  function Branch(n: nat): Chain {
    Chain(Repeat("a", 5) + Repeat("b", n), [CoinLeaf(2)], map[])
  }

  function Cached(): Db {
    OneRow(2, 50, 1, 50)
  }

  lemma CachedTrue()
    ensures TablesTrue(Cached(), Trunk()) && Grounded(Cached(), Trunk()) && Honest(Cached(), Trunk(), "w")
  {
    hide Grounded; hide Honest; hide Complete;
    OneRowTrue(2, 50, 1, 50, 50);
    assert Whole(Cached(), Trunk(), "w");
  }

  lemma BranchIsReorg(n: nat)
    requires 97 <= n <= 99
    ensures Branch(n).Valid() && Branch(n).Tip() == n + 4 && ForksWithinDepth(Cached(), Trunk(), Branch(n))
    ensures RevivesOnlyStored(Cached(), Trunk(), Branch(n), "w")
  {
    hide RewindOutput; hide Coin; hide CoinKey;
    CoinOpens();
    var next := Branch(n);
    assert next.HashAt(50) == "b";
    forall i: nat ensures SharesLeaf(Trunk(), next, i, Fork(next)) && SharesLeaf(next, Trunk(), i, Fork(next)) {
    }
  }

  lemma BranchGrows(m: nat, n: nat)
    requires m <= n
    ensures Extends(Branch(m), Branch(n))
  {
    var a, b := Branch(m), Branch(n);
    forall i: nat ensures SharesLeaf(a, b, i, a.Tip()) && SharesLeaf(b, a, i, a.Tip()) {
    }
  }

  /** Where the second repair leaves the database when the first stopped before its clamp. */
  function RepairedTwice(): Db {
    ReorgOutcome(Cached().Rollback(Fork(Branch(97))), Branch(99))
  }

  /**
   A failure between the rollback and the clamp, then two more blocks: the second repair clamps to a
   higher fork than the first one deleted to, and X, in between, is never looked for again. The same
   repair without the failure keeps every guarantee.
   */
  lemma UnclampedRollbackLosesOutput()
    ensures TablesTrue(Cached(), Trunk()) && Extends(Branch(97), Branch(99))
    ensures ForksWithinDepth(Cached(), Trunk(), Branch(97)) && ForksWithinDepth(Cached(), Trunk(), Branch(99))
    ensures Whole(ReorgOutcome(Cached(), Branch(99)), Branch(99), "w")
    ensures var d := RepairedTwice();
            d.CaughtUp("w") && Missing(d, Branch(99), "w", 1) && 1 <= d.ScannedIndex()
  {
    hide ForksWithinDepth; hide TablesTrue; hide Grounded; hide Honest; hide Whole; hide Extends;
    hide ReorgOutcome; hide RevivesOnlyStored;
    CachedTrue();
    BranchGrows(97, 99);
    BranchIsReorg(97);
    BranchIsReorg(99);
    RepairIsReseat(Cached(), Trunk(), Branch(99), "w");
    RepairedTwiceMisses();
  }

  lemma RepairedTwiceMisses()
    ensures var d := RepairedTwice();
            d.CaughtUp("w") && Missing(d, Branch(99), "w", 1) && 1 <= d.ScannedIndex()
  {
    hide RewindOutput; hide Coin; hide CoinKey;
    CoinOpens();
    var once := Cached().Rollback(Fork(Branch(97)));
    var later := Branch(99);
    assert Fork(Branch(97)) == 1 && Fork(later) == 3;
    assert once.outputs == map[];
    BranchIsReorg(99);
    FirstIndexCuts(later, 3, 1);
    assert RepairedTwice().accounts == map["w" := Account(0, 3)];
    assert later.Funds("w", 1);
  }

  /**
   The likeliest form of the same failure: the node was one block behind, the rollback was to height 0 and stopped
   before its clamp, and the node catches up. Phase 0 passes, w counts as caught up, and X is gone for good.
   */
  lemma UnclampedCatchUpLosesOutput()
    ensures TablesTrue(Cached(), Trunk()) && ForksWithinDepth(Cached(), Trunk(), OneCoin(2, 49, map[]))
    ensures var d := Cached().Rollback(Fork(OneCoin(2, 49, map[])));
            && !ReorgSeen(d.cursor, Trunk()) && Follows(d, Trunk(), Trunk())
            && d.CaughtUp("w") && Missing(d, Trunk(), "w", 1) && 1 <= d.ScannedIndex()
  {
    hide TablesTrue; hide ForksWithinDepth; hide RewindOutput; hide Coin; hide CoinKey; hide Chain.Valid;
    CoinOpens();
    CachedTrue();
    OneBehindIsReorg();
    OneCoinValid(2, 50, map[]);
    assert Fork(OneCoin(2, 49, map[])) == 0 && Cached().Rollback(0).outputs == map[];
    assert Trunk().Funds("w", 1);
  }

  lemma OneBehindIsReorg()
    ensures ForksWithinDepth(Cached(), Trunk(), OneCoin(2, 49, map[]))
  {
    hide RewindOutput; hide Coin; hide CoinKey; hide Chain.Valid;
    OneCoinValid(2, 49, map[]);
    var late := OneCoin(2, 49, map[]);
    forall i: nat ensures SharesLeaf(Trunk(), late, i, 0) && SharesLeaf(late, Trunk(), i, 0) {
    }
  }

  // ---- an output revived by a reorganization ----

  /** X was already spent when its index was first listed, so it was never stored. */
  function NeverListed(): Db {
    Db(map["w" := Account(0, 50)], map[], Some(Cursor(1, 50, "a")))
  }

  lemma NeverListedTrue()
    ensures TablesTrue(NeverListed(), OneCoin(2, 50, map[1 := 50]))
  {
    hide RewindOutput; hide Coin; hide CoinKey; hide Chain.Valid;
    OneCoinValid(2, 50, map[1 := 50]);
  }

  lemma NeverListedMisses()
    ensures ReorgOutcome(NeverListed(), Branch(99)) == Db(map["w" := Account(0, 3)], map[], Some(Cursor(1, 3, "a")))
    ensures forall db: Db :: db.accounts.Keys == {"w"} && db.accounts["w"].start == 0 && db.outputs == map[] ==>
              Missing(db, Branch(99), "w", 1)
  {
    hide RewindOutput; hide Coin; hide CoinKey;
    CoinOpens();
    var next := Branch(99);
    BranchIsReorg(99);
    FirstIndexCuts(next, 3, 1);
    assert next.Funds("w", 1);
    assert NeverListed().ClampScans(3).accounts == map["w" := Account(0, 3)];
  }

  /** The branch drops the spend of X; the repair seats the cursor above X, and no one looks for it again. */
  lemma RevivedOutputIsMissed()
    ensures TablesTrue(NeverListed(), OneCoin(2, 50, map[1 := 50]))
    ensures ForksWithinDepth(NeverListed(), OneCoin(2, 50, map[1 := 50]), Branch(99))
    ensures !RevivesOnlyStored(NeverListed(), OneCoin(2, 50, map[1 := 50]), Branch(99), "w")
    ensures var d := ReorgOutcome(NeverListed(), Branch(99));
            d.CaughtUp("w") && Missing(d, Branch(99), "w", 1) && 1 <= d.ScannedIndex()
  {
    hide RewindOutput; hide Coin; hide CoinKey;
    CoinOpens();
    hide TablesTrue; hide ReorgOutcome; hide Chain.Valid;
    var chain, next := OneCoin(2, 50, map[1 := 50]), Branch(99);
    NeverListedTrue();
    BranchIsReorg(99);
    NeverListedMisses();
    assert Missing(NeverListed(), next, "w", 1);
    forall i: nat ensures SharesLeaf(chain, next, i, 3) && SharesLeaf(next, chain, i, 3) {
    }
  }

  // ---- an unseen reorganization above the checkpoint ----

  /**
   Exactly when a completed tick on a chain that keeps the checkpoint leaves true rows and flags: what was
   stored above the checkpoint must have been true of that chain already. Storing never corrects a row.
   */
  lemma UnseenReorgIff(db: Db, chain: Chain, next: Chain, rows: seq<AccountRow>)
    requires RowsTrue(db, chain) && CheckpointKept(db, chain, next)
    ensures RowsTrue(TickOutcome(db, next, rows), next) <==> AboveStillTrue(db, next)
  {
    hide RewindOutput; hide RowTrue; hide SpendTrue; hide TickOutcome; hide AgreeUpTo; hide Chain.Valid;
    if AboveStillTrue(db, next) {
      FollowKeepsRows(db, chain, next);
      TickKeepsRows(db, next, rows);
    }
    if RowsTrue(TickOutcome(db, next, rows), next) {
      forall c | c in db.outputs && Above(db.outputs[c], db.PrevTip())
        ensures RowTrue(next, c, db.outputs[c]) && SpendTrue(next, db.outputs[c])
      {
        TickLeavesRow(db, next, rows, c);
        assert SpendTrue(chain, db.outputs[c]);
        LeftRowWasTrue(chain, next, c, db.outputs[c], TickOutcome(db, next, rows).outputs[c]);
      }
    }
  }

  lemma LeftRowWasTrue(chain: Chain, next: Chain, c: string, row: Row, after: Row)
    requires SpendTrue(chain, row) && RowTrue(next, c, after) && SpendTrue(next, after)
    requires after == row || (!row.spent && after == Spend(row, next.Tip()))
    ensures RowTrue(next, c, row) && SpendTrue(next, row)
  {
    hide RewindOutput;
  }

  /** So it is enough that no tick stopped after storing something above the checkpoint. */
  lemma NothingAboveIsSafe(db: Db, chain: Chain, next: Chain, rows: seq<AccountRow>)
    requires RowsTrue(db, chain) && CheckpointKept(db, chain, next) && CutAt(db, db.PrevTip())
    ensures RowsTrue(TickOutcome(db, next, rows), next)
  {
    hide TickOutcome; hide RowsTrue;
    UnseenReorgIff(db, chain, next, rows);
  }

  /** Found after the checkpoint at height 1 by a tick that then stopped. */
  function Interrupted(): Db {
    OneRow(2, 1, 0, 1)
  }

  /** The chain with its block 2 replaced: X is now in block 3. */
  function Replaced(): Chain {
    Chain(["a", "a", "b", "b"], [CoinLeaf(3)], map[])
  }

  lemma InterruptedTrue()
    ensures TablesTrue(Interrupted(), OneCoin(2, 2, map[]))
  {
    OneRowTrue(2, 1, 0, 1, 2);
  }

  /**
   A tick stops after storing X, one block above the checkpoint, and a one-block reorganization then
   moves X one block up. The checkpoint is still canonical, so Phase 0 passes, and the next tick,
   although it completes, keeps the row with the height of the block that is gone.
   */
  lemma UnseenReorgKeepsStaleHeight()
    ensures TablesTrue(Interrupted(), OneCoin(2, 2, map[])) && Replaced().Valid()
    ensures AgreeUpTo(OneCoin(2, 2, map[]), Replaced(), 1) && !Extends(OneCoin(2, 2, map[]), Replaced())
    ensures !ReorgSeen(Interrupted().cursor, Replaced())
    ensures var d := TickOutcome(Interrupted(), Replaced(), [AccountRow("w", 0, 1)]);
            "X" in d.outputs && d.outputs["X"] == CoinRow(2) && !RowTrue(Replaced(), "X", d.outputs["X"])
  {
    hide RewindOutput; hide Coin; hide CoinKey;
    CoinOpens();
    hide TablesTrue; hide TickOutcome;
    var chain, next, db := OneCoin(2, 2, map[]), Replaced(), Interrupted();
    InterruptedTrue();
    assert chain.HashAt(2) != next.HashAt(2);
    forall i: nat ensures SharesLeaf(chain, next, i, 1) && SharesLeaf(next, chain, i, 1) {
    }
    StaleRowStays();
  }

  lemma StaleRowStays()
    ensures var d := TickOutcome(Interrupted(), Replaced(), [AccountRow("w", 0, 1)]);
            "X" in d.outputs && d.outputs["X"] == CoinRow(2)
  {
    hide StoreAll; hide Chain.UnspentRange;
    var next, db := Replaced(), Interrupted();
    StoreAllMembers(db.outputs, NewOutputs(db, next), CaughtUpNames([AccountRow("w", 0, 1)], 1), "X");
    assert next.Unspent(1) && next.Live("X");
  }

  // ---- page loops against arbitrary replies ----

  /** The forward scan's next start index never overflows; the backfill's does only for one kind of reply. */
  lemma NextStartOverflowsIff(start: u64, upTo: u64, page: OutputPage)
    ensures !LastPage(start, page) ==> page.lastRetrievedIndex as int + 1 < TWO_TO_THE_64
    ensures !LastBackfillPage(start, upTo, page) && page.lastRetrievedIndex as int + 1 >= TWO_TO_THE_64 <==>
            page.lastRetrievedIndex == TWO_TO_THE_64 - 1 && page.highestIndex < upTo
  {
  }
}
