/** Whole-run guarantees: what holds in every state any interleaving can reach. */
module Safety {
  import opened Basics
  import opened Rewind
  import opened Chains
  import opened Tables
  import opened Protocol
  import opened Consistency

  /** Whatever happens, an account that lost nothing stays whole through every transition harmless to it. */
  lemma EventKeepsWhole(w: World, e: Event, rh: string)
    requires GroundInv(w) && WholeIn(w, rh) && Enabled(w, e) && Harmless(w, e, rh) && rh in w.db.accounts
    ensures WholeIn(After(w, e), rh)
  {
    hide Grounded; hide Honest; hide Complete; hide FullyStored; hide HarmedBy; hide RewindOutput; hide AgreeUpTo;
    match e
    case Follow(next) => FollowEventKeeps(w, next, rh);
    case Begin(pending) =>
    case StoreMatch(i, a) => RowEventKeeps(w, e, rh);
    case EndDiscover => EndDiscoverKeeps(w, rh);
    case MarkGone(c) => RowEventKeeps(w, e, rh);
    case MoveCursor => MoveCursorKeeps(w, rh);
    case AdvanceOne(a) => AdvanceOneKeeps(w, a, rh);
    case StartBackfill =>
    case EndBackfill => EndBackfillKeeps(w, rh);
    case EndTick =>
    case RollBack(next) => RollBackKeeps(w, next, rh);
    case Clamp => ClampStepKeeps(w, rh);
    case SeatCursor => SeatCursorKeeps(w, rh);
    case Arrive(accounts) => ArriveKeeps(w, accounts, rh);
    case LowerScan(a, height) => LowerScanKeeps(w, a, height, rh);
    case Abort =>
  }

  /** Who is harmed grows only by those an event harms, and shrinks by the account a backfill completes. */
  lemma HarmedAfter(w: World, e: Event)
    requires Enabled(w, e)
    ensures After(w, e).harmed == w.harmed + HarmedBy(w, e) - (if e.EndBackfill? then {w.phase.account} else {})
    ensures w.db.accounts.Keys <= After(w, e).db.accounts.Keys
    ensures !e.Arrive? ==> After(w, e).db.accounts.Keys == w.db.accounts.Keys
  {
    hide RevivesNothing; hide RevivesOnlyStored; hide DeletesNeeded; hide Follows; hide ForksWithinDepth;
    hide FullyStored; hide Chain.Live; hide RewindOutput;
  }

  lemma EventKeeps(w: World, e: Event)
    requires Inv(w) && Enabled(w, e)
    ensures Inv(After(w, e))
  {
    hide Enabled; hide After; hide GroundInv; hide WholeIn; hide Harmless;
    var v := After(w, e);
    EventKeepsGround(w, e);
    HarmedAfter(w, e);
    forall rh | rh in v.db.accounts && rh !in v.harmed ensures WholeIn(v, rh) {
      if rh !in w.db.accounts {
        ArrivedThere(w, e, rh);
      } else if rh in w.harmed + HarmedBy(w, e) {
        EndBackfillCures(w);
      } else {
        EventKeepsWhole(w, e, rh);
      }
    }
  }

  lemma ArrivedThere(w: World, e: Event, rh: string)
    requires GroundInv(w) && Enabled(w, e) && rh !in w.db.accounts && rh in After(w, e).db.accounts
    ensures WholeIn(After(w, e), rh)
  {
    hide GroundInv; hide WholeIn;
    HarmedAfter(w, e);
    NewcomerIsWhole(w, e.accounts, rh);
  }

  /** Every state along a run satisfies the invariant. */
  lemma {:induction false} TraceKeeps(ws: seq<World>, k: nat)
    requires Trace(ws) && Inv(ws[0]) && k < |ws|
    ensures Inv(ws[k])
  {
    if k > 0 {
      TraceKeeps(ws, k - 1);
      assert Step(ws[k - 1], ws[k]);
      var e :| Enabled(ws[k - 1], e) && After(ws[k - 1], e) == ws[k];
      EventKeeps(ws[k - 1], e);
    }
  }

  lemma ReachesKeeps(w: World, v: World)
    requires Inv(w) && Reaches(w, v)
    ensures Inv(v)
  {
    var ws :| Trace(ws) && ws[0] == w && ws[|ws| - 1] == v;
    TraceKeeps(ws, |ws| - 1);
  }

  /**
   Reachable from an empty database by any interleaving of ticks, aborts, chain changes, registrations and rescans.
   */
  ghost predicate Reachable(w: World) {
    exists start :: Starts(start) && Reaches(start, w)
  }

  lemma ReachableInv(w: World)
    requires Reachable(w)
    ensures Inv(w)
  {
    var start :| Starts(start) && Reaches(start, w);
    StartsInv(start);
    ReachesKeeps(start, w);
  }

  /** A row of this account for this very output, not flagged spent. */
  ghost predicate LiveRowOf(db: Db, chain: Chain, rh: string, i: nat) {
    chain.Pays(rh, i) &&
    var c := chain.At(i).commit;
    && c in db.outputs && db.outputs[c].owner == rh && db.outputs[c].mmrIndex == i && !db.outputs[c].spent
    && db.outputs[c].height == chain.At(i).height && db.outputs[c].value == Found(rh, chain.At(i).proof).value
  }

  /** A stored live output is stored for its owner, truthfully and unspent. */
  lemma StoredIsLiveRow(db: Db, chain: Chain, rh: string, i: nat)
    requires chain.Valid() && RowsTrue(db, chain)
    requires chain.Funds(rh, i) && chain.At(i).commit in db.outputs
    ensures LiveRowOf(db, chain, rh, i)
  {
    var c := chain.At(i).commit;
    assert RowTrue(chain, c, db.outputs[c]) && SpendTrue(chain, db.outputs[c]);
    assert SoleOwner(chain.At(i).proof);
  }

  lemma ReachableStays(w: World, v: World)
    requires Reachable(w) && Reaches(w, v)
    ensures Reachable(v)
  {
    var start :| Starts(start) && Reaches(start, w);
    ReachesTrans(start, w, v);
  }

  /**
   Completeness, account by account: whatever happened to others, a caught-up account that lost nothing
   itself, or was backfilled since, has a live row for every output it owns below the cursor.
   */
  lemma WholeRunCompleteness(w: World, rh: string, i: nat)
    requires Reachable(w) && rh !in w.harmed && !w.phase.RolledBack? && !w.phase.Unclamped?
    requires rh in w.db.accounts && w.db.accounts[rh].scan >= w.db.PrevTip()
    requires w.chain.Funds(rh, i) && i <= w.db.ScannedIndex() && w.chain.At(i).height > w.db.accounts[rh].start
    ensures LiveRowOf(w.db, w.chain, rh, i)
  {
    hide RewindOutput; hide RowsTrue; hide LiveRowOf;
    ReachableInv(w);
    assert WholeIn(w, rh);
    assert !Missing(w.db, w.chain, rh, i);
    StoredIsLiveRow(w.db, w.chain, rh, i);
  }

  /**
   Caught up or not, every output strictly between birthday and scan height has its live row; after a
   rollback without its clamp, below the height to which it is trusted.
   */
  lemma ScanHeightNeverLies(w: World, rh: string, i: nat)
    requires Reachable(w) && rh !in w.harmed && rh in w.db.accounts && w.chain.Funds(rh, i)
    requires w.db.accounts[rh].start < w.chain.At(i).height < w.db.accounts[rh].scan
    requires w.phase.RolledBack? || w.phase.Unclamped? ==> w.chain.At(i).height < w.phase.sure
    ensures LiveRowOf(w.db, w.chain, rh, i)
  {
    hide RewindOutput; hide RowsTrue; hide Complete; hide LiveRowOf;
    ReachableInv(w);
    assert WholeIn(w, rh);
    if w.phase.RolledBack? || w.phase.Unclamped? {
      assert !Missing(w.db.ClampScans(w.phase.sure), w.chain, rh, i);
    } else {
      assert !Missing(w.db, w.chain, rh, i);
    }
    StoredIsLiveRow(w.db, w.chain, rh, i);
  }

  /** A completed backfill cures: whatever the account had lost, it then has everything, and counts as unharmed. */
  lemma BackfillCures(w: World)
    requires Reachable(w) && Enabled(w, EndBackfill)
    ensures var v := After(w, EndBackfill);
            Reachable(v) && w.phase.account !in v.harmed && FullyStored(v.db, v.chain, w.phase.account)
  {
    hide GroundInv; hide WholeIn; hide FullyStored;
    ReachableInv(w);
    EndBackfillCures(w);
    var start :| Starts(start) && Reaches(start, w);
    ReachesStep(start, w, EndBackfill);
  }

  /**
   Row truth, in every phase and whatever happened: each column is that of the commitment's one output on
   the chain last read, and the identifier is one a wallet can spend from.
   */
  lemma WholeRunRowTruth(w: World, c: string)
    requires Reachable(w) && c in w.db.outputs
    ensures var row := w.db.outputs[c];
            && w.chain.Has(row.mmrIndex)
            && (forall i: nat :: w.chain.Has(i) && w.chain.At(i).commit == c <==> i == row.mmrIndex)
            && var leaf := w.chain.At(row.mmrIndex);
               && row.height == leaf.height && row.isCoinbase == leaf.coinbase
               && row.lockHeight == row.height + (if row.isCoinbase then COINBASE_MATURITY else 0)
               && (forall rh :: Opens(rh, leaf.proof) <==> rh == row.owner)
               && row.value == Found(row.owner, leaf.proof).value
               && row.keyId == Found(row.owner, leaf.proof).keyId && row.nChild == Found(row.owner, leaf.proof).nChild
               && row.value != 0 && NamesPath(row.keyId, row.nChild)
  {
    hide RewindOutput;
    ReachableInv(w);
    var row := w.db.outputs[c];
    assert RowTrue(w.chain, c, row);
    assert SoleOwner(w.chain.At(row.mmrIndex).proof);
    FoundIsSpendable(row.owner, w.chain.At(row.mmrIndex).proof);
    forall i: nat | w.chain.Has(i) && w.chain.At(i).commit == c ensures i == row.mmrIndex {
    }
  }

  /** Spend flags: a flagged row was spent no later than recorded, and an unspent output is never flagged. */
  lemma WholeRunSpendFlags(w: World, c: string)
    requires Reachable(w) && c in w.db.outputs
    ensures var row := w.db.outputs[c];
            && (row.spent ==> row.spentHeight.Some?)
            && (row.spent ==> row.mmrIndex in w.chain.spentAt)
            && (row.spent ==> w.chain.spentAt[row.mmrIndex] <= row.spentHeight.value)
            && (w.chain.Live(c) ==> !row.spent && row.spentHeight.None?)
  {
    ReachableInv(w);
    assert RowTrue(w.chain, c, w.db.outputs[c]) && SpendTrue(w.chain, w.db.outputs[c]);
  }

  lemma OnlyTheseRaise(w: World, e: Event, rh: string)
    requires Enabled(w, e) && rh in w.db.accounts
    ensures rh in After(w, e).db.accounts
    ensures After(w, e).db.accounts[rh].scan > w.db.accounts[rh].scan ==>
              && (e == AdvanceOne(rh) || (e.EndBackfill? && w.phase.account == rh))
              && After(w, e).db.accounts[rh].scan == w.chain.Tip()
  {
    hide FullyStored; hide ForksWithinDepth; hide Chain.Live; hide HarmedBy; hide Follows;
  }

  /**
   Whatever transition raises an account's scan height raises it to the tip just scanned; unless the account
   is still harmed afterwards, it then has everything.
   */
  lemma ScanAdvancesOnlyWhenCovered(w: World, v: World, rh: string)
    requires Inv(w) && Step(w, v)
    requires rh in w.db.accounts && rh in v.db.accounts && v.db.accounts[rh].scan > w.db.accounts[rh].scan
    ensures v.chain == w.chain && v.db.accounts[rh].scan == w.chain.Tip() == v.db.PrevTip()
    ensures rh !in v.harmed ==> FullyStored(v.db, v.chain, rh)
  {
    hide RewindOutput; hide RowsTrue;
    var e :| Enabled(w, e) && After(w, e) == v;
    OnlyTheseRaise(w, e, rh);
    if e.EndBackfill? {
      EndBackfillCures(w);
    } else if rh !in w.harmed {
      assert WholeIn(w, rh);
      SetScanMakesWhole(w.db, w.chain, rh);
    }
  }

  /** A registration may land in any reachable state; the newcomer is unharmed and the others keep what they have. */
  lemma RegistrationIsSafeAnywhere(w: World, rh: string, start: nat)
    requires Reachable(w) && rh !in w.db.accounts
    ensures Enabled(w, Arrive(w.db.Register(rh, start).accounts))
    ensures w.db.Register(rh, start).accounts == w.db.accounts[rh := Account(start, start)]
    ensures var v := w.(db := w.db.Register(rh, start));
            Reachable(v) && rh !in v.harmed && WholeIn(v, rh)
    ensures forall a :: a in w.db.accounts && WholeIn(w, a) ==> WholeIn(w.(db := w.db.Register(rh, start)), a)
  {
    hide GroundInv; hide WholeIn;
    var e := Arrive(w.db.Register(rh, start).accounts);
    var begin :| Starts(begin) && Reaches(begin, w);
    ReachesStep(begin, w, e);
    assert After(w, e) == w.(db := w.db.Register(rh, start));
    ReachableInv(w);
    NewcomerIsWhole(w, e.accounts, rh);
    forall a | a in w.db.accounts && WholeIn(w, a) ensures WholeIn(After(w, e), a) {
      ArriveKeeps(w, e.accounts, a);
    }
  }

  // ---- what a single step may do to rows and birthdays ----

  /**
   A row appears only where the scanner is looking: above the cursor, for an account the forward scan serves, or at or
   above the birthday of the account being backfilled.
   */
  lemma RowsAppearOnlyWhereScanned(w: World, v: World, c: string)
    requires Inv(w) && Step(w, v) && c in v.db.outputs && c !in w.db.outputs
    ensures var row := v.db.outputs[c];
            && w.chain.Unspent(row.mmrIndex) && w.chain.At(row.mmrIndex).commit == c && !row.spent
            && row.height == w.chain.At(row.mmrIndex).height
            && ((w.phase.Discover? && row.owner in w.phase.caughtUp && row.mmrIndex > w.db.ScannedIndex()) ||
                (w.phase.Backfill? && row.owner == w.phase.account && row.owner in w.db.accounts
                 && row.height >= w.db.accounts[row.owner].start))
  {
    hide RewindOutput; hide RowsTrue; hide CursorTrue; hide ScanBounded; hide WholeIn; hide HarmedBy;
    var e :| Enabled(w, e) && After(w, e) == v;
    assert e.StoreMatch?;
    if w.phase.Backfill? {
      FirstIndexCuts(w.chain, w.db.accounts[w.phase.account].start, e.index);
    }
  }

  /** A spend is recorded at the tip of the snapshot that lacks the output, and touches no other column. */
  lemma SpendsAreRecordedAtTheTip(w: World, v: World, c: string)
    requires Step(w, v) && c in w.db.outputs && !w.db.outputs[c].spent
    requires c in v.db.outputs && v.db.outputs[c].spent
    ensures !w.chain.Live(c) && v.chain == w.chain
    ensures v.db.outputs[c] == w.db.outputs[c].(spent := true, spentHeight := Some(w.chain.Tip()))
  {
    hide RewindOutput; hide HarmedBy; hide Follows; hide ForksWithinDepth; hide FullyStored; hide Chain.Live;
    var e :| Enabled(w, e) && After(w, e) == v;
    assert e == MarkGone(c);
  }

  /**
   A row disappears only in a rollback, from above the fork, or in a rescan of its account, at or above the target.
   */
  lemma RowsDisappearOnly(w: World, e: Event, c: string)
    requires Enabled(w, e) && c in w.db.outputs && c !in After(w, e).db.outputs
    ensures var row := w.db.outputs[c];
            || (e.RollBack? && row.height > SaturatingSub(e.next.Tip(), 100))
            || (e.LowerScan? && row.owner == e.rewindHash && row.height >= e.height)
  {
    hide RewindOutput; hide HarmedBy; hide Follows; hide ForksWithinDepth; hide FullyStored; hide Chain.Live;
  }

  lemma BirthdayStays(w: World, v: World, rh: string)
    requires Step(w, v) && rh in w.db.accounts
    ensures rh in v.db.accounts && v.db.accounts[rh].start == w.db.accounts[rh].start
  {
    hide RewindOutput; hide HarmedBy; hide Follows; hide ForksWithinDepth; hide FullyStored; hide Chain.Live;
    var e :| Enabled(w, e) && After(w, e) == v;
  }

  /** An account keeps the birthday it was registered with. */
  lemma {:induction false} BirthdayIsPermanent(ws: seq<World>, rh: string)
    requires Trace(ws) && rh in ws[0].db.accounts
    ensures var last := ws[|ws| - 1].db;
            rh in last.accounts && last.accounts[rh].start == ws[0].db.accounts[rh].start
  {
    hide Step;
    if |ws| > 1 {
      var n := |ws| - 1;
      TraceInit(ws);
      BirthdayIsPermanent(ws[..n], rh);
      assert Step(ws[n - 1], ws[n]);
      BirthdayStays(ws[n - 1], ws[n], rh);
    }
  }

  lemma TraceInit(ws: seq<World>)
    requires Trace(ws) && |ws| > 1
    ensures Trace(ws[..|ws| - 1])
  {
    hide Step;
    var init := ws[..|ws| - 1];
    forall j, k | 0 <= j && k == j + 1 && k < |init| ensures Step(init[j], init[k]) {
      assert Step(ws[j], ws[k]);
    }
  }
}
