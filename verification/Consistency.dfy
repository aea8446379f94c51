/** What every reachable state of the scanner guarantees about the stored rows. */
module Consistency {
  import opened Basics
  import opened Rewind
  import opened Chains
  import opened Tables
  import opened Protocol

  ghost predicate RowsTrue(db: Db, chain: Chain) {
    forall c :: c in db.outputs ==> RowTrue(chain, c, db.outputs[c]) && SpendTrue(chain, db.outputs[c])
  }

  ghost predicate CursorTrue(db: Db, chain: Chain) {
    db.cursor.Some? ==>
      && db.ScannedIndex() <= chain.Size() && db.PrevTip() <= chain.Tip()
      && db.cursor.value.tipHash == chain.HashAt(db.PrevTip())
      && forall i: nat :: chain.Has(i) && i <= db.ScannedIndex() ==> chain.At(i).height <= db.PrevTip()
  }

  /** Only an account that never progressed past its own birthday may be ahead of the cursor. */
  ghost predicate ScanBounded(db: Db) {
    forall rh :: rh in db.accounts ==>
      db.accounts[rh].scan <= db.PrevTip() || db.accounts[rh].scan <= db.accounts[rh].start
  }

  /** What holds whatever happens: every row, every spend flag and the checkpoint are true of the chain. */
  ghost predicate Grounded(db: Db, chain: Chain) {
    chain.Valid() && RowsTrue(db, chain) && CursorTrue(db, chain) && ScanBounded(db)
  }

  /** `scan_height` never lies: nothing strictly between birthday and scan height is missing. */
  ghost predicate Honest(db: Db, chain: Chain, rh: string) {
    forall i: nat :: Missing(db, chain, rh, i) ==> chain.At(i).height >= db.accounts[rh].scan
  }

  /** A caught-up account misses nothing that the cursor has passed. */
  ghost predicate Complete(db: Db, chain: Chain, rh: string) {
    forall i: nat :: Missing(db, chain, rh, i) && db.CaughtUp(rh) ==> i > db.ScannedIndex()
  }

  ghost predicate Whole(db: Db, chain: Chain, rh: string) {
    Honest(db, chain, rh) && Complete(db, chain, rh)
  }

  ghost predicate TablesTrue(db: Db, chain: Chain) {
    Grounded(db, chain) && forall rh :: rh in db.accounts ==> Whole(db, chain, rh)
  }

  ghost predicate CursorAtTip(db: Db, chain: Chain) {
    db.cursor == Some(Cursor(chain.Size(), chain.Tip(), chain.HashAt(chain.Tip())))
  }

  /** Nothing in the outputs table was recorded above height `h`. */
  ghost predicate CutAt(db: Db, h: nat) {
    forall c :: c in db.outputs ==> !Above(db.outputs[c], h)
  }

  /** No scan height lies above `h` that claims anything. */
  ghost predicate ScansBelow(db: Db, h: nat) {
    forall rh :: rh in db.accounts ==> db.accounts[rh].scan <= h || Unstarted(db, rh)
  }

  /** During a repair the rows already describe both branches. */
  ghost predicate CutForBranch(w: World, next: Chain) {
    next.Valid() && AgreeUpTo(w.chain, next, Fork(next)) && w.db.PrevTip() > Fork(next) && CutAt(w.db, Fork(next))
  }

  /** The accounts a scan pass is serving. */
  function ServedIn(phase: Phase): set<string> {
    match phase
    case Discover(caughtUp, _) => caughtUp
    case Reconcile(caughtUp, _) => caughtUp
    case Advance(todo, _) => todo
    case _ => {}
  }

  /** The backfill starts at the first index of its account's birthday block. */
  ghost predicate BackfillsFrom(w: World)
    requires w.phase.Backfill?
  {
    var rh := w.phase.account;
    rh in w.db.accounts && w.phase.first == w.chain.FirstIndex(w.db.accounts[rh].start)
  }

  /** What holds in any case. */
  ghost predicate GroundInv(w: World) {
    && Grounded(w.db, w.chain) && ServedIn(w.phase) <= w.db.accounts.Keys
    && (w.phase.Advance? || w.phase.Backfill? ==> CursorAtTip(w.db, w.chain))
    && (w.phase.Backfill? ==> BackfillsFrom(w))
    && (w.phase.RolledBack? ==> CutForBranch(w, w.phase.next))
    && (w.phase.Reseat? ==> CutForBranch(w, w.phase.next) && ScansBelow(w.db, Fork(w.phase.next)))
  }

  /** Outside the forward scan, an account is behind, or has nothing below its birthday to miss. */
  ghost predicate InSplit(db: Db, caughtUp: set<string>, rh: string) {
    && (rh in caughtUp ==> db.CaughtUp(rh))
    && (rh in db.accounts && rh !in caughtUp ==> db.Behind(rh) || Unstarted(db, rh))
  }

  /** What a scan phase knows about an account. */
  ghost predicate PhaseKnows(w: World, rh: string) {
    match w.phase
    case Discover(caughtUp, _) => InSplit(w.db, caughtUp, rh)
    case Reconcile(caughtUp, _) => InSplit(w.db, caughtUp, rh) && (rh in caughtUp ==> FullyStored(w.db, w.chain, rh))
    case Advance(todo, _) => rh in todo ==> FullyStored(w.db, w.chain, rh)
    case Reseat(next) => Honest(w.db, next, rh)
    case _ => true
  }

  /** An account that lost nothing. Between a rollback and its clamp, its scan height counts only as far as trusted. */
  ghost predicate WholeIn(w: World, rh: string) {
    match w.phase
    case Unclamped(sure) => Honest(w.db.ClampScans(sure), w.chain, rh)
    case RolledBack(next, sure) =>
      && (rh in w.db.accounts && !Unstarted(w.db, rh) ==> Min(w.db.accounts[rh].scan, Fork(next)) <= sure)
      && Honest(w.db.ClampScans(sure), w.chain, rh) && Honest(w.db.ClampScans(Fork(next)), next, rh)
    case _ => Whole(w.db, w.chain, rh) && PhaseKnows(w, rh)
  }

  ghost predicate Inv(w: World) {
    && GroundInv(w) && w.harmed <= w.db.accounts.Keys
    && forall rh :: rh in w.db.accounts && rh !in w.harmed ==> WholeIn(w, rh)
  }

  // ---- rows, whatever happens ----

  /** What was recorded up to a common height is true on both chains. */
  lemma RowCrosses(chain: Chain, next: Chain, h: nat, c: string, row: Row)
    requires RowTrue(chain, c, row) && SpendTrue(chain, row) && AgreeUpTo(chain, next, h) && !Above(row, h)
    ensures RowTrue(next, c, row) && SpendTrue(next, row)
  {
    hide RewindOutput;
    assert SharesLeaf(chain, next, row.mmrIndex, h);
  }

  lemma FollowKeepsRows(db: Db, chain: Chain, next: Chain)
    requires RowsTrue(db, chain) && CheckpointKept(db, chain, next) && AboveStillTrue(db, next)
    ensures RowsTrue(db, next)
  {
    forall c | c in db.outputs ensures RowTrue(next, c, db.outputs[c]) && SpendTrue(next, db.outputs[c]) {
      if !Above(db.outputs[c], db.PrevTip()) {
        RowCrosses(chain, next, db.PrevTip(), c, db.outputs[c]);
      }
    }
  }

  lemma CutRowsCross(db: Db, chain: Chain, next: Chain, h: nat)
    requires RowsTrue(db, chain) && AgreeUpTo(chain, next, h) && CutAt(db, h)
    ensures RowsTrue(db, next)
  {
    forall c | c in db.outputs ensures RowTrue(next, c, db.outputs[c]) && SpendTrue(next, db.outputs[c]) {
      RowCrosses(chain, next, h, c, db.outputs[c]);
    }
  }

  lemma RollBackKeepsRows(db: Db, chain: Chain, fork: nat)
    requires RowsTrue(db, chain)
    ensures RowsTrue(db.Rollback(fork), chain) && CutAt(db.Rollback(fork), fork)
  {
    hide RewindOutput;
    var d := db.Rollback(fork);
    forall c | c in d.outputs
      ensures RowTrue(chain, c, d.outputs[c]) && SpendTrue(chain, d.outputs[c]) && !Above(d.outputs[c], fork)
    {
      assert RowTrue(chain, c, db.outputs[c]) && SpendTrue(chain, db.outputs[c]);
    }
  }

  /** A fresh row is true of the output it was made from. */
  lemma NewRowTrue(chain: Chain, i: nat, rh: string)
    requires chain.Funds(rh, i)
    ensures var row := NewRow(chain.Output(i), rh, Found(rh, chain.At(i).proof));
            RowTrue(chain, chain.At(i).commit, row) && SpendTrue(chain, row)
  {
  }

  lemma InsertKeepsRows(db: Db, chain: Chain, i: nat, rh: string)
    requires RowsTrue(db, chain) && chain.Funds(rh, i)
    ensures var row := NewRow(chain.Output(i), rh, Found(rh, chain.At(i).proof));
            RowsTrue(db.(outputs := Insert(db.outputs, chain.At(i).commit, row)), chain)
  {
    hide RewindOutput;
    NewRowTrue(chain, i, rh);
    var row := NewRow(chain.Output(i), rh, Found(rh, chain.At(i).proof));
    var outputs := Insert(db.outputs, chain.At(i).commit, row);
    forall c | c in outputs ensures RowTrue(chain, c, outputs[c]) && SpendTrue(chain, outputs[c]) {
      assert c in db.outputs ==> RowTrue(chain, c, db.outputs[c]) && SpendTrue(chain, db.outputs[c]);
    }
  }

  /** An unspent row whose output is not live was spent by now. */
  lemma GoneIsSpent(chain: Chain, c: string, row: Row)
    requires chain.Valid() && RowTrue(chain, c, row) && !chain.Live(c)
    ensures RowTrue(chain, c, Spend(row, chain.Tip())) && SpendTrue(chain, Spend(row, chain.Tip()))
  {
    hide RewindOutput;
    assert row.mmrIndex in chain.spentAt;
  }

  lemma MarkKeepsRows(db: Db, chain: Chain, c: string)
    requires chain.Valid() && RowsTrue(db, chain) && c in db.outputs && !chain.Live(c)
    ensures RowsTrue(db.(outputs := MarkSpent(db.outputs, c, chain.Tip())), chain)
  {
    hide RewindOutput;
    GoneIsSpent(chain, c, db.outputs[c]);
    var outputs := MarkSpent(db.outputs, c, chain.Tip());
    forall d | d in outputs ensures RowTrue(chain, d, outputs[d]) && SpendTrue(chain, outputs[d]) {
      assert RowTrue(chain, d, db.outputs[d]) && SpendTrue(chain, db.outputs[d]);
    }
  }

  lemma RescanKeepsRows(db: Db, chain: Chain, rh: string, height: nat)
    requires RowsTrue(db, chain)
    ensures RowsTrue(db.Rescan(rh, height), chain)
  {
    var d := db.Rescan(rh, height);
    forall c | c in d.outputs ensures RowTrue(chain, c, d.outputs[c]) && SpendTrue(chain, d.outputs[c]) {
      assert RowTrue(chain, c, db.outputs[c]) && SpendTrue(chain, db.outputs[c]);
    }
  }

  lemma CursorFollows(db: Db, chain: Chain, next: Chain)
    requires chain.Valid() && CursorTrue(db, chain) && CheckpointKept(db, chain, next)
    ensures CursorTrue(db, next)
  {
    if db.cursor.Some? {
      assert chain.HashAt(db.PrevTip()) == next.HashAt(db.PrevTip());
    }
    forall i: nat | chain.Has(i) && i <= db.ScannedIndex() ensures next.Has(i) && next.At(i) == chain.At(i) {
      assert SharesLeaf(chain, next, i, db.PrevTip());
    }
    var last: nat := db.ScannedIndex();
    assert last > 0 ==> chain.Has(last);
  }

  /** A cursor just below the first index of a block has passed only lower blocks. */
  lemma SeatedCursorTrue(db: Db, next: Chain, h: nat)
    requires next.Valid() && h <= next.Tip()
    ensures CursorTrue(db.SetCursor(SaturatingSub(next.FirstIndex(h), 1), h, next.HashAt(h)), next)
  {
    forall i: nat | next.Has(i) && i < next.FirstIndex(h) ensures next.At(i).height < h {
      FirstIndexCuts(next, h, i);
    }
  }

  // ---- what holds in any case ----

  /** Raising scan heights to the checkpoint, lowering them, and registrations keep them bounded. */
  lemma BoundedKept(w: World, e: Event)
    requires GroundInv(w) && Enabled(w, e)
    ensures ScanBounded(After(w, e).db) && ServedIn(After(w, e).phase) <= After(w, e).db.accounts.Keys
  {
    hide RowsTrue; hide AgreeUpTo; hide FullyStored; hide Follows; hide Chain.Live; hide RewindOutput; hide HarmedBy;
  }

  /** Actions that touch neither the outputs nor the cursor, nor start or clamp a repair. */
  lemma OtherEventKeepsGround(w: World, e: Event)
    requires GroundInv(w) && Enabled(w, e) && ScanBounded(After(w, e).db)
    requires ServedIn(After(w, e).phase) <= After(w, e).db.accounts.Keys
    requires After(w, e).chain == w.chain && After(w, e).db.outputs == w.db.outputs
    requires After(w, e).db.cursor == w.db.cursor && !e.RollBack? && !e.Follow?
    ensures GroundInv(After(w, e))
  {
    hide RowTrue; hide SpendTrue; hide RewindOutput; hide Chain.Live; hide AgreeUpTo; hide FullyStored; hide HarmedBy;
    hide Chain.Valid; hide ReorgSeen;
    var v := After(w, e);
    assert RowsTrue(v.db, v.chain) && CursorTrue(v.db, v.chain);
    assert forall next :: CutForBranch(w, next) ==> CutForBranch(v, next);
  }

  lemma MoveCursorKeepsGround(w: World)
    requires GroundInv(w) && Enabled(w, MoveCursor)
    ensures GroundInv(After(w, MoveCursor))
  {
    hide RowTrue; hide SpendTrue; hide RewindOutput; hide Chain.Live; hide AgreeUpTo;
    var v := After(w, MoveCursor);
    assert RowsTrue(v.db, v.chain);
  }

  /** Row truth needs no care from anyone: revivals, any rescan and a repair stopped half-way leave it intact. */
  lemma EventKeepsGround(w: World, e: Event)
    requires GroundInv(w) && Enabled(w, e)
    ensures GroundInv(After(w, e))
  {
    hide RowTrue; hide SpendTrue; hide RewindOutput; hide Chain.Live; hide AgreeUpTo; hide Missing; hide FullyStored;
    hide HarmedBy; hide Chain.Valid; hide ReorgSeen; hide ScanBounded;
    BoundedKept(w, e);
    match e
    case Follow(next) =>
      FollowKeepsRows(w.db, w.chain, next);
      CursorFollows(w.db, w.chain, next);
    case StoreMatch(i, rh) => InsertKeepsRows(w.db, w.chain, i, rh);
    case MarkGone(c) => MarkKeepsRows(w.db, w.chain, c);
    case MoveCursor => MoveCursorKeepsGround(w);
    case RollBack(next) =>
      RollBackKeepsRows(w.db, w.chain, Fork(next));
      ForkBelowCheckpoint(w.db, w.chain, next);
    case SeatCursor =>
      CutRowsCross(w.db, w.chain, w.phase.next, Fork(w.phase.next));
      ForkOfAgreed(w.chain, w.phase.next, Fork(w.phase.next));
      SeatedCursorTrue(w.db, w.phase.next, Fork(w.phase.next));
    case LowerScan(rh, height) => RescanKeepsRows(w.db, w.chain, rh, height);
    case _ => OtherEventKeepsGround(w, e);
  }

  lemma ForkOfAgreed(chain: Chain, next: Chain, h: nat)
    requires AgreeUpTo(chain, next, h)
    ensures h <= next.Tip()
  {
  }

  /** The fork always lies below the checkpoint of a repairable reorganization. */
  lemma ForkBelowCheckpoint(db: Db, chain: Chain, next: Chain)
    requires CursorTrue(db, chain) && ForksWithinDepth(db, chain, next)
    ensures Fork(next) < db.PrevTip()
  {
    var t: nat := db.PrevTip();
    assert t <= Fork(next) ==> chain.HashAt(t) == next.HashAt(t);
  }

  lemma StartsInv(w: World)
    requires Starts(w)
    ensures Inv(w)
  {
  }

  // ---- one account, one kind of change at a time ----

  /** Nothing an account has scanned past goes missing while the checkpoint stands. */
  lemma MissingFollows(db: Db, chain: Chain, next: Chain, rh: string, i: nat)
    requires Grounded(db, chain) && Whole(db, chain, rh) && CheckpointKept(db, chain, next) && CursorTrue(db, next)
    requires Missing(db, next, rh, i) && i !in chain.spentAt
    ensures next.At(i).height >= db.accounts[rh].scan
    ensures db.CaughtUp(rh) ==> i > db.ScannedIndex()
  {
    hide RewindOutput; hide RowsTrue;
    if next.At(i).height <= db.PrevTip() {
      assert SharesLeaf(next, chain, i, db.PrevTip());
      assert Missing(db, chain, rh, i);
    }
  }

  /** Any chain that keeps the checkpoint will do for an account it revives nothing of. */
  lemma FollowKeepsWhole(db: Db, chain: Chain, next: Chain, rh: string)
    requires Grounded(db, chain) && Whole(db, chain, rh) && CheckpointKept(db, chain, next)
    requires RevivesNothing(db, chain, next, rh)
    ensures Whole(db, next, rh)
  {
    hide RewindOutput; hide RowsTrue;
    CursorFollows(db, chain, next);
    forall i: nat | Missing(db, next, rh, i)
      ensures next.At(i).height >= db.accounts[rh].scan && (db.CaughtUp(rh) ==> i > db.ScannedIndex())
    {
      if i !in chain.spentAt {
        MissingFollows(db, chain, next, rh, i);
      }
    }
  }

  lemma FollowKeepsGround(db: Db, chain: Chain, next: Chain)
    requires Grounded(db, chain) && Follows(db, chain, next)
    ensures Grounded(db, next)
  {
    hide RowsTrue; hide AboveStillTrue;
    FollowKeepsRows(db, chain, next);
    CursorFollows(db, chain, next);
  }

  /** More rows take nothing from anyone. */
  lemma MoreRowsKeep(db: Db, chain: Chain, outputs: Outputs, rh: string)
    requires db.outputs.Keys <= outputs.Keys
    ensures Whole(db, chain, rh) ==> Whole(db.(outputs := outputs), chain, rh)
    ensures FullyStored(db, chain, rh) ==> FullyStored(db.(outputs := outputs), chain, rh)
  {
    hide RewindOutput;
    forall i: nat | Missing(db.(outputs := outputs), chain, rh, i) ensures Missing(db, chain, rh, i) {
    }
  }

  /** Storing a match, or marking a row, keeps what every account has. */
  lemma RowEventKeeps(w: World, e: Event, rh: string)
    requires WholeIn(w, rh) && Enabled(w, e) && (e.StoreMatch? || e.MarkGone?)
    ensures WholeIn(After(w, e), rh)
  {
    hide RewindOutput; hide Whole; hide FullyStored; hide Chain.Live;
    MoreRowsKeep(w.db, w.chain, After(w, e).db.outputs, rh);
  }

  lemma EndDiscoverKeeps(w: World, rh: string)
    requires WholeIn(w, rh) && Enabled(w, EndDiscover)
    ensures WholeIn(After(w, EndDiscover), rh)
  {
    hide RewindOutput;
  }

  /** Once the cursor has moved, who was not in the forward scan is behind, or has nothing to miss. */
  lemma MoveCursorKeeps(w: World, rh: string)
    requires GroundInv(w) && WholeIn(w, rh) && Enabled(w, MoveCursor)
    ensures WholeIn(After(w, MoveCursor), rh)
  {
    hide RowsTrue; hide RewindOutput; hide Chain.Live;
    var v := After(w, MoveCursor);
    forall i: nat | Missing(v.db, w.chain, rh, i) ensures Missing(w.db, w.chain, rh, i) {
    }
  }

  /** Whatever was missing before, an account that has everything is whole at the tip. */
  lemma SetScanMakesWhole(db: Db, chain: Chain, rh: string)
    requires chain.Valid() && FullyStored(db, chain, rh)
    ensures Whole(db.SetScan(rh, chain.Tip()), chain, rh) && FullyStored(db.SetScan(rh, chain.Tip()), chain, rh)
  {
    hide RewindOutput; hide Chain.Valid;
    forall i: nat | Missing(db.SetScan(rh, chain.Tip()), chain, rh, i) ensures Missing(db, chain, rh, i) {
    }
  }

  /** Nothing about an account depends on the other accounts. */
  lemma OtherAccounts(db: Db, after: Db, chain: Chain, rh: string)
    requires rh in db.accounts && rh in after.accounts && after.accounts[rh] == db.accounts[rh]
    requires after.outputs == db.outputs && after.cursor == db.cursor
    ensures Whole(db, chain, rh) ==> Whole(after, chain, rh)
    ensures Honest(db, chain, rh) ==> Honest(after, chain, rh)
    ensures FullyStored(db, chain, rh) ==> FullyStored(after, chain, rh)
  {
    hide RewindOutput;
    forall i: nat | Missing(after, chain, rh, i) ensures Missing(db, chain, rh, i) {
    }
  }

  lemma AdvanceOneKeeps(w: World, a: string, rh: string)
    requires GroundInv(w) && WholeIn(w, rh) && Enabled(w, AdvanceOne(a)) && rh in w.db.accounts
    ensures WholeIn(After(w, AdvanceOne(a)), rh)
  {
    hide RewindOutput; hide Whole; hide FullyStored; hide Grounded;
    if a == rh {
      ValidGround(w);
      SetScanMakesWhole(w.db, w.chain, rh);
    } else {
      OtherAccounts(w.db, After(w, AdvanceOne(a)).db, w.chain, rh);
    }
  }

  lemma ValidGround(w: World)
    requires GroundInv(w)
    ensures w.chain.Valid()
  {
  }

  /** The cure: whatever it had lost, an account is whole once its backfill is done. */
  lemma EndBackfillCures(w: World)
    requires GroundInv(w) && Enabled(w, EndBackfill)
    ensures WholeIn(After(w, EndBackfill), w.phase.account)
    ensures FullyStored(After(w, EndBackfill).db, w.chain, w.phase.account)
  {
    hide RewindOutput; hide Whole; hide FullyStored; hide Grounded;
    ValidGround(w);
    SetScanMakesWhole(w.db, w.chain, w.phase.account);
  }

  lemma EndBackfillKeeps(w: World, rh: string)
    requires GroundInv(w) && WholeIn(w, rh) && Enabled(w, EndBackfill) && rh in w.db.accounts
    ensures WholeIn(After(w, EndBackfill), rh)
  {
    hide RewindOutput; hide Whole; hide FullyStored; hide Grounded;
    if rh == w.phase.account {
      EndBackfillCures(w);
    } else {
      OtherAccounts(w.db, After(w, EndBackfill).db, w.chain, rh);
    }
  }

  // ---- registrations ----

  /** Arrivals seen through a clamp: a new account's scan height is at most its birthday. */
  ghost predicate ArrivedBehind(before: Db, after: Db) {
    && after.outputs == before.outputs && after.cursor == before.cursor
    && before.accounts.Keys <= after.accounts.Keys
    && (forall rh :: rh in before.accounts ==> after.accounts[rh] == before.accounts[rh])
    && (forall rh :: rh in after.accounts && rh !in before.accounts ==> Unstarted(after, rh))
  }

  /** An account that never progressed past its birthday misses nothing it or the cursor claims. */
  lemma UnstartedIsWhole(db: Db, chain: Chain, rh: string)
    requires Unstarted(db, rh)
    ensures Honest(db, chain, rh)
    ensures CursorTrue(db, chain) ==> Complete(db, chain, rh)
  {
    hide RewindOutput;
  }

  lemma ArrivedBehindKeeps(db: Db, chain: Chain, after: Db, rh: string)
    requires ArrivedBehind(db, after) && (rh in db.accounts ==> Whole(db, chain, rh)) && CursorTrue(db, chain)
    ensures Whole(after, chain, rh)
  {
    hide RewindOutput;
    if rh in db.accounts {
      OtherAccounts(db, after, chain, rh);
    } else if rh in after.accounts {
      assert CursorTrue(after, chain);
      UnstartedIsWhole(after, chain, rh);
    }
  }

  lemma ArrivedBehindKeepsGround(db: Db, chain: Chain, after: Db)
    requires Grounded(db, chain) && ArrivedBehind(db, after)
    ensures Grounded(after, chain)
  {
    hide RowTrue; hide SpendTrue; hide Chain.Valid;
    assert RowsTrue(after, chain);
  }

  /** Clamping keeps an account's birthday, and lowers a scan height at most. */
  lemma ClampedAccount(db: Db, after: Db, chain: Chain, rh: string, level: nat)
    requires rh in db.accounts && rh in after.accounts && after.accounts[rh] == db.accounts[rh]
    requires after.outputs == db.outputs && after.cursor == db.cursor
    ensures Honest(db.ClampScans(level), chain, rh) ==> Honest(after.ClampScans(level), chain, rh)
  {
    hide RewindOutput;
    OtherAccounts(db.ClampScans(level), after.ClampScans(level), chain, rh);
  }

  lemma ArriveKeeps(w: World, accounts: map<string, Account>, rh: string)
    requires WholeIn(w, rh) && Enabled(w, Arrive(accounts)) && rh in w.db.accounts
    ensures WholeIn(After(w, Arrive(accounts)), rh)
  {
    hide Honest; hide Whole; hide FullyStored; hide RewindOutput;
    var after := w.db.(accounts := accounts);
    OtherAccounts(w.db, after, w.chain, rh);
    match w.phase
    case Unclamped(sure) => ClampedAccount(w.db, after, w.chain, rh, sure);
    case RolledBack(next, sure) =>
      ClampedAccount(w.db, after, w.chain, rh, sure);
      ClampedAccount(w.db, after, next, rh, Fork(next));
    case Reseat(next) => OtherAccounts(w.db, after, next, rh);
    case _ =>
  }

  /** In every phase a newcomer is whole from the start. */
  lemma NewcomerIsWhole(w: World, accounts: map<string, Account>, rh: string)
    requires GroundInv(w) && Enabled(w, Arrive(accounts)) && rh in accounts && rh !in w.db.accounts
    ensures WholeIn(After(w, Arrive(accounts)), rh)
  {
    hide Honest; hide Complete; hide RewindOutput; hide RowsTrue; hide AgreeUpTo; hide Chain.Valid;
    var after := w.db.(accounts := accounts);
    assert CursorTrue(after, w.chain);
    UnstartedIsWhole(after, w.chain, rh);
    match w.phase
    case Unclamped(sure) => UnstartedIsWhole(after.ClampScans(sure), w.chain, rh);
    case RolledBack(next, sure) =>
      UnstartedIsWhole(after.ClampScans(sure), w.chain, rh);
      UnstartedIsWhole(after.ClampScans(Fork(next)), next, rh);
    case Reseat(next) => UnstartedIsWhole(after, next, rh);
    case _ =>
  }

  // ---- rescans ----

  /** What a rescan deletes belongs to that account, at or above the target. */
  lemma RescanLoses(db: Db, chain: Chain, rh: string, height: nat, a: string, i: nat)
    requires chain.Valid() && RowsTrue(db, chain)
    requires Missing(db.Rescan(rh, height), chain, a, i) && !Missing(db, chain, a, i)
    ensures a == rh && chain.At(i).height >= height
    ensures var c := chain.At(i).commit;
            && c in db.outputs && db.outputs[c].owner == rh && db.outputs[c].mmrIndex == i
            && db.outputs[c].height == chain.At(i).height
  {
    hide RewindOutput;
    var c := chain.At(i).commit;
    var row := db.outputs[c];
    assert RowTrue(chain, c, row);
    assert row.mmrIndex == i && row.height == chain.At(i).height;
    assert SoleOwner(chain.At(i).proof);
  }

  /** Whatever a rescan deletes, no scan height claims it afterwards. */
  lemma RescanKeepsHonest(db: Db, chain: Chain, rh: string, height: nat, a: string)
    requires chain.Valid() && RowsTrue(db, chain) && Honest(db, chain, a)
    ensures Honest(db.Rescan(rh, height), chain, a)
  {
    hide RewindOutput; hide RowsTrue;
    var d := db.Rescan(rh, height);
    forall i: nat | Missing(d, chain, a, i) ensures chain.At(i).height >= d.accounts[a].scan {
      if !Missing(db, chain, a, i) {
        RescanLoses(db, chain, rh, height, a, i);
      }
    }
  }

  /**
   A rescan keeps an account whole if it is another's, or strictly backwards, or of a pending account, or takes
   nothing needed.
   */
  lemma RescanKeeps(db: Db, chain: Chain, rh: string, height: nat, a: string)
    requires Grounded(db, chain) && Whole(db, chain, a)
    requires a == rh && rh in db.accounts ==>
               height < db.accounts[rh].scan || db.Behind(rh) || !DeletesNeeded(db, chain, rh, height)
    ensures Whole(db.Rescan(rh, height), chain, a)
  {
    hide RewindOutput; hide RowsTrue;
    var d := db.Rescan(rh, height);
    RescanKeepsHonest(db, chain, rh, height, a);
    forall i: nat | Missing(d, chain, a, i) && d.CaughtUp(a) ensures i > d.ScannedIndex() {
      if !Missing(db, chain, a, i) {
        RescanLoses(db, chain, rh, height, a, i);
        assert chain.Live(chain.At(i).commit);
      }
    }
  }

  lemma LowerScanKeeps(w: World, a: string, height: nat, rh: string)
    requires GroundInv(w) && WholeIn(w, rh) && Enabled(w, LowerScan(a, height)) && Harmless(w, LowerScan(a, height), rh)
    ensures WholeIn(After(w, LowerScan(a, height)), rh)
  {
    hide Honest; hide Complete; hide DeletesNeeded; hide RowTrue; hide SpendTrue;
    match w.phase
    case Idle => RescanKeeps(w.db, w.chain, a, height, rh);
    case Unclamped(sure) =>
      assert RowsTrue(w.db.ClampScans(sure), w.chain);
      RescanKeepsHonest(w.db.ClampScans(sure), w.chain, a, height, rh);
      ClampRescan(w.db, a, height, sure);
    case _ =>
  }

  lemma ClampRescan(db: Db, rh: string, height: nat, sure: nat)
    ensures db.ClampScans(sure).Rescan(rh, height) == db.Rescan(rh, height).ClampScans(sure)
  {
    assert db.ClampScans(sure).Rescan(rh, height).accounts == db.Rescan(rh, height).ClampScans(sure).accounts;
  }

  // ---- repairs ----

  /** A row lost to a rollback lay above the fork. */
  lemma RollBackLoses(db: Db, chain: Chain, fork: nat, level: nat, rh: string, i: nat)
    requires chain.Valid() && RowsTrue(db, chain) && Missing(db.Rollback(fork).ClampScans(level), chain, rh, i)
    ensures Missing(db, chain, rh, i) || chain.At(i).height > fork
  {
    hide RewindOutput;
    var c := chain.At(i).commit;
    if c in db.outputs {
      assert RowTrue(chain, c, db.outputs[c]);
      assert db.outputs[c].mmrIndex == i;
    }
  }

  /** After a rollback the scan heights are right up to just above the fork. */
  lemma RollBackKeepsHonest(db: Db, chain: Chain, fork: nat, level: nat, rh: string)
    requires chain.Valid() && RowsTrue(db, chain) && Honest(db, chain, rh) && level <= fork + 1
    ensures Honest(db.Rollback(fork).ClampScans(level), chain, rh)
  {
    hide RewindOutput; hide RowsTrue; hide Chain.Valid;
    var d := db.Rollback(fork).ClampScans(level);
    forall i: nat | Missing(d, chain, rh, i) ensures chain.At(i).height >= d.accounts[rh].scan {
      RollBackLoses(db, chain, fork, level, rh, i);
    }
  }

  /** Clamping to a fork trusted for this account, and below the checkpoint, leaves it whole. */
  lemma ClampKeeps(db: Db, chain: Chain, sure: nat, fork: nat, rh: string)
    requires Honest(db.ClampScans(sure), chain, rh) && CursorTrue(db, chain) && fork < db.PrevTip()
    requires rh in db.accounts && !Unstarted(db, rh) ==> Min(db.accounts[rh].scan, fork) <= sure
    ensures Whole(db.ClampScans(fork), chain, rh)
  {
    hide RewindOutput;
    var e, d := db.ClampScans(sure), db.ClampScans(fork);
    forall i: nat | Missing(d, chain, rh, i)
      ensures chain.At(i).height >= d.accounts[rh].scan && !d.CaughtUp(rh)
    {
      assert Missing(e, chain, rh, i);
    }
  }

  /** Below both the fork and the scan height, everything live on the new branch is stored. */
  lemma HonestBelowFork(db: Db, chain: Chain, next: Chain, rh: string, i: nat)
    requires chain.Valid() && RowsTrue(db, chain) && Honest(db, chain, rh)
    requires ForksWithinDepth(db, chain, next) && RevivesOnlyStored(db, chain, next, rh)
    requires rh in db.accounts && next.Funds(rh, i)
    requires db.accounts[rh].start < next.At(i).height < Min(db.accounts[rh].scan, Fork(next))
    ensures next.At(i).commit in db.outputs && db.outputs[next.At(i).commit].height <= Fork(next)
  {
    hide RewindOutput;
    var c := next.At(i).commit;
    assert SharesLeaf(next, chain, i, Fork(next));
    assert c !in db.outputs ==> Missing(db, next, rh, i) && (chain.Unspent(i) ==> Missing(db, chain, rh, i));
    if c in db.outputs {
      assert RowTrue(chain, c, db.outputs[c]);
      assert db.outputs[c].mmrIndex == i;
    }
  }

  /** After rollback and clamp, the scan height is honest about the new branch. */
  lemma RollBackIsReady(db: Db, chain: Chain, next: Chain, rh: string)
    requires chain.Valid() && RowsTrue(db, chain) && Honest(db, chain, rh)
    requires ForksWithinDepth(db, chain, next) && RevivesOnlyStored(db, chain, next, rh)
    ensures Honest(db.Rollback(Fork(next)).ClampScans(Fork(next)), next, rh)
  {
    hide RewindOutput; hide RowsTrue; hide AgreeUpTo; hide Chain.Valid;
    var fork := Fork(next);
    var d := db.Rollback(fork).ClampScans(fork);
    forall i: nat | Missing(d, next, rh, i) ensures next.At(i).height >= d.accounts[rh].scan {
      if next.At(i).height < d.accounts[rh].scan {
        HonestBelowFork(db, chain, next, rh, i);
      }
    }
  }

  /** What is trusted of an account: all of it, or what lies below `sure`. */
  function Trusted(w: World): Db {
    if w.phase.Unclamped? then w.db.ClampScans(w.phase.sure) else w.db
  }

  /** Trusting less of an account changes nothing a repair does that clamps it no higher. */
  lemma TrustedRepair(w: World, next: Chain, rh: string, level: nat)
    requires BetweenTicks(w.phase) && StillSure(w, rh, Some(Fork(next))) && rh in w.db.accounts && !Unstarted(w.db, rh)
    requires w.phase.Unclamped? ==> Min(w.db.accounts[rh].scan, level) <= w.phase.sure
    ensures var d, e := w.db.Rollback(Fork(next)).ClampScans(level), Trusted(w).Rollback(Fork(next)).ClampScans(level);
            d.accounts[rh] == e.accounts[rh] && d.outputs == e.outputs && d.cursor == e.cursor
    ensures RevivesOnlyStored(w.db, w.chain, next, rh) ==> RevivesOnlyStored(Trusted(w), w.chain, next, rh)
  {
    hide RewindOutput;
    var e := Trusted(w);
    forall i: nat | RevivesOnlyStored(w.db, w.chain, next, rh) && Missing(e, next, rh, i) && i in w.chain.spentAt
      ensures next.At(i).height >= Min(e.accounts[rh].scan, Fork(next))
    {
      assert Missing(w.db, next, rh, i);
    }
  }

  lemma RollBackKeepsStarted(w: World, next: Chain, rh: string, level: nat)
    requires w.chain.Valid() && RowsTrue(w.db, w.chain) && Honest(Trusted(w), w.chain, rh)
    requires BetweenTicks(w.phase) && rh in w.db.accounts && !Unstarted(w.db, rh) && level <= Fork(next) + 1
    requires ForksWithinDepth(w.db, w.chain, next) && RevivesOnlyStored(w.db, w.chain, next, rh)
    requires StillSure(w, rh, Some(Fork(next))) && (w.phase.Unclamped? ==> level <= w.phase.sure)
    ensures Honest(w.db.Rollback(Fork(next)).ClampScans(level), w.chain, rh)
    ensures Honest(w.db.Rollback(Fork(next)).ClampScans(Fork(next)), next, rh)
  {
    hide Honest; hide RewindOutput; hide ForksWithinDepth; hide RevivesOnlyStored; hide RowTrue; hide SpendTrue;
    var fork, rolled, base := Fork(next), w.db.Rollback(Fork(next)), Trusted(w);
    assert RowsTrue(base, w.chain);
    TrustedForks(w, next);
    TrustedRepair(w, next, rh, level);
    TrustedRepair(w, next, rh, fork);
    RollBackKeepsHonest(base, w.chain, fork, level, rh);
    RollBackIsReady(base, w.chain, next, rh);
    OtherAccounts(base.Rollback(fork).ClampScans(level), rolled.ClampScans(level), w.chain, rh);
    OtherAccounts(base.Rollback(fork).ClampScans(fork), rolled.ClampScans(fork), next, rh);
  }

  lemma RollBackKeeps(w: World, next: Chain, rh: string)
    requires GroundInv(w) && WholeIn(w, rh) && Enabled(w, RollBack(next)) && Harmless(w, RollBack(next), rh)
    requires rh in w.db.accounts
    ensures WholeIn(After(w, RollBack(next)), rh)
  {
    hide Honest; hide ForksWithinDepth; hide RevivesOnlyStored; hide RowsTrue; hide CursorTrue; hide ScanBounded;
    hide Chain.Valid;
    var level := SureBelow(w.phase, Fork(next));
    if Unstarted(w.db, rh) {
      UnstartedIsWhole(w.db.Rollback(Fork(next)).ClampScans(level), w.chain, rh);
      UnstartedIsWhole(w.db.Rollback(Fork(next)).ClampScans(Fork(next)), next, rh);
    } else {
      RollBackKeepsStarted(w, next, rh, level);
    }
  }

  lemma TrustedForks(w: World, next: Chain)
    requires ForksWithinDepth(w.db, w.chain, next)
    ensures ForksWithinDepth(Trusted(w), w.chain, next)
  {
  }

  lemma ClampStepKeeps(w: World, rh: string)
    requires GroundInv(w) && WholeIn(w, rh) && Enabled(w, Clamp)
    ensures WholeIn(After(w, Clamp), rh)
  {
    hide Honest; hide Complete; hide RowsTrue; hide Chain.Valid; hide AgreeUpTo;
    ClampKeeps(w.db, w.chain, w.phase.sure, Fork(w.phase.next), rh);
  }

  /** Reseated below the fork's first index, the cursor has passed nothing the account may miss on the new branch. */
  lemma SeatCursorKeeps(w: World, rh: string)
    requires GroundInv(w) && WholeIn(w, rh) && Enabled(w, SeatCursor)
    ensures WholeIn(After(w, SeatCursor), rh)
  {
    hide RewindOutput; hide RowsTrue;
    var next := w.phase.next;
    var d := After(w, SeatCursor).db;
    forall i: nat | Missing(d, next, rh, i)
      ensures next.At(i).height >= d.accounts[rh].scan && (d.CaughtUp(rh) ==> i > d.ScannedIndex())
    {
      assert Missing(w.db, next, rh, i);
      FirstIndexCuts(next, Fork(next), i);
    }
  }

  lemma FollowEventKeeps(w: World, next: Chain, rh: string)
    requires GroundInv(w) && WholeIn(w, rh) && Enabled(w, Follow(next)) && Harmless(w, Follow(next), rh)
    requires rh in w.db.accounts
    ensures WholeIn(After(w, Follow(next)), rh)
  {
    hide RewindOutput; hide RowsTrue; hide AboveStillTrue; hide AgreeUpTo; hide RevivesNothing;
    if w.phase.Unclamped? {
      if Unstarted(w.db, rh) {
        UnstartedIsWhole(w.db, w.chain, rh);
      } else {
        assert w.db.ClampScans(w.phase.sure).accounts[rh] == w.db.accounts[rh];
        OtherAccounts(w.db.ClampScans(w.phase.sure), w.db, w.chain, rh);
      }
    }
    FollowKeepsWhole(w.db, w.chain, next, rh);
  }
}
