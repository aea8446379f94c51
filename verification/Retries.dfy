/** Aborted ticks: running again from where one stopped loses and duplicates nothing. */
module Retries {
  import opened Rewind
  import opened Chains
  import opened Tables
  import opened Stores
  import opened Protocol
  import opened Consistency
  import opened Safety
  import opened Outcomes
  import opened Ticks

  /** A row already there is unchanged, or marked as the reconcile would mark it. */
  predicate RowProgress(chain: Chain, c: string, before: Row, after: Row) {
    after == before || (!before.spent && !chain.Live(c) && after == Spend(before, chain.Tip()))
  }

  /** A new row is a match of this tick's forward scan. */
  ghost predicate NewMatch(base: Db, chain: Chain, names: set<string>, c: string, row: Row) {
    exists i: nat :: i > base.ScannedIndex() && row.owner in names && chain.Funds(row.owner, i)
      && chain.At(i).commit == c
      && row == NewRow(chain.Output(i), row.owner, Found(row.owner, chain.At(i).proof))
  }

  /** What a tick that has not yet written the cursor may have written. */
  ghost predicate Partial(base: Db, chain: Chain, names: set<string>, db: Db) {
    && db.cursor == base.cursor
    && (forall rh :: rh in base.accounts ==> rh in db.accounts && db.accounts[rh] == base.accounts[rh])
    && (forall c :: c in base.outputs ==> c in db.outputs && RowProgress(chain, c, base.outputs[c], db.outputs[c]))
    && (forall c :: c in db.outputs && c !in base.outputs ==> NewMatch(base, chain, names, c, db.outputs[c]))
  }

  predicate BeforeCursor(phase: Phase, names: set<string>) {
    (phase.Discover? || phase.Reconcile?) && phase.caughtUp == names
  }

  lemma MatchKeepsPartial(base: Db, chain: Chain, names: set<string>, db: Db, i: nat, rh: string)
    requires Partial(base, chain, names, db) && i > base.ScannedIndex() && rh in names && chain.Funds(rh, i)
    ensures var row := NewRow(chain.Output(i), rh, Found(rh, chain.At(i).proof));
            Partial(base, chain, names, db.(outputs := Insert(db.outputs, chain.At(i).commit, row)))
  {
    hide RewindOutput; hide RowProgress;
    var row := NewRow(chain.Output(i), rh, Found(rh, chain.At(i).proof));
    assert NewMatch(base, chain, names, chain.At(i).commit, row);
  }

  lemma MarkKeepsPartial(base: Db, chain: Chain, names: set<string>, db: Db, c: string)
    requires Partial(base, chain, names, db) && c in db.outputs && !db.outputs[c].spent && !chain.Live(c)
    ensures Partial(base, chain, names, db.(outputs := MarkSpent(db.outputs, c, chain.Tip())))
  {
    hide RewindOutput;
    assert c in base.outputs;
  }

  lemma EventKeepsPartial(base: Db, names: set<string>, w: World, e: Event)
    requires BeforeCursor(w.phase, names) && Partial(base, w.chain, names, w.db) && Enabled(w, e)
    requires BeforeCursor(After(w, e).phase, names)
    ensures After(w, e).chain == w.chain && Partial(base, w.chain, names, After(w, e).db)
  {
    hide RewindOutput; hide HarmedBy; hide CheckpointKept; hide ForksWithinDepth; hide AboveStillTrue; hide FullyStored;
    hide NewMatch; hide RowProgress; hide Chain.Live;
    match e
    case StoreMatch(i, rh) => MatchKeepsPartial(base, w.chain, names, w.db, i, rh);
    case MarkGone(c) => MarkKeepsPartial(base, w.chain, names, w.db, c);
    case _ =>
  }

  /** The next trace states stay partial results of the same tick. */
  lemma {:induction false} TraceStaysPartial(ws: seq<World>, names: set<string>, k: nat)
    requires Trace(ws) && 1 <= k < |ws|
    requires forall j :: 1 <= j < |ws| ==> BeforeCursor(ws[j].phase, names)
    requires ws[0].phase.Idle?
    ensures ws[k].chain == ws[0].chain && Partial(ws[0].db, ws[0].chain, names, ws[k].db)
  {
    assert Step(ws[k - 1], ws[k]);
    var e :| Enabled(ws[k - 1], e) && After(ws[k - 1], e) == ws[k];
    if k == 1 {
      assert e.Begin?;
    } else {
      TraceStaysPartial(ws, names, k - 1);
      EventKeepsPartial(ws[0].db, names, ws[k - 1], e);
    }
  }

  lemma RerunRow(base: Db, chain: Chain, names: seq<string>, db: Db, c: string)
    requires chain.Valid() && Partial(base, chain, NameSet(names), db)
    ensures var again := StoreAll(db.outputs, NewOutputs(base, chain), names);
            var once := StoreAll(base.outputs, NewOutputs(base, chain), names);
            && (c in again <==> c in once)
            && (c in once ==> RowProgress(chain, c, once[c], again[c]))
  {
    hide RewindOutput; hide StoreAll; hide Chain.UnspentRange;
    var outs := NewOutputs(base, chain);
    StoreAllMembers(db.outputs, outs, names, c);
    StoreAllMembers(base.outputs, outs, names, c);
    if c in db.outputs && c !in base.outputs {
      NewMatchIsStored(base, chain, names, c, db.outputs[c]);
    } else if c !in db.outputs {
      SameNewRow(base.outputs, db.outputs, outs, names, c);
    }
  }

  /** A row stored afresh does not depend on the other rows. */
  lemma {:induction false} SameNewRow(a: Outputs, b: Outputs, outs: seq<ChainOutput>, names: seq<string>, c: string)
    requires c !in a && c !in b
    ensures c in StoreAll(a, outs, names) <==> c in StoreAll(b, outs, names)
    ensures c in StoreAll(a, outs, names) ==> StoreAll(a, outs, names)[c] == StoreAll(b, outs, names)[c]
  {
    hide RewindOutput;
    if |outs| > 0 {
      SameNewRow(a, b, outs[..|outs| - 1], names, c);
    }
  }

  /** Rerunning the discovery and the reconcile over a partial result gives the full result. */
  lemma RerunOutputs(base: Db, chain: Chain, names: seq<string>, db: Db)
    requires chain.Valid() && Partial(base, chain, NameSet(names), db)
    ensures Settle(StoreAll(db.outputs, NewOutputs(db, chain), names), chain)
         == Settle(StoreAll(base.outputs, NewOutputs(base, chain), names), chain)
  {
    hide RewindOutput; hide StoreAll; hide Settle; hide RowProgress; hide Chain.UnspentRange; hide NewMatch;
    hide Chain.Valid;
    var outs := NewOutputs(base, chain);
    var again, once := StoreAll(db.outputs, outs, names), StoreAll(base.outputs, outs, names);
    forall c
      ensures c in again <==> c in once
      ensures c in once ==> RowProgress(chain, c, once[c], again[c])
    {
      RerunRow(base, chain, names, db, c);
    }
    SettleForgetsProgress(once, again, chain);
  }

  lemma SettleForgetsProgress(once: Outputs, again: Outputs, chain: Chain)
    requires again.Keys == once.Keys
    requires forall c :: c in once ==> RowProgress(chain, c, once[c], again[c])
    ensures Settle(again, chain) == Settle(once, chain)
  {
  }

  /** A match found before the abort is the very row a full pass would store. */
  lemma NewMatchIsStored(base: Db, chain: Chain, names: seq<string>, c: string, row: Row)
    requires chain.Valid() && NewMatch(base, chain, NameSet(names), c, row) && c !in base.outputs
    ensures c in StoreAll(base.outputs, NewOutputs(base, chain), names)
    ensures StoreAll(base.outputs, NewOutputs(base, chain), names)[c] == row
  {
    hide RewindOutput; hide StoreAll; hide Chain.UnspentRange;
    var i: nat :| i > base.ScannedIndex() && row.owner in NameSet(names) && chain.Funds(row.owner, i)
      && chain.At(i).commit == c
      && row == NewRow(chain.Output(i), row.owner, Found(row.owner, chain.At(i).proof));
    var outs := NewOutputs(base, chain);
    OfferedIsStored(base.outputs, chain, base.ScannedIndex() + 1, chain.Size(), names, row.owner, i);
    StoreAllMembers(base.outputs, outs, names, c);
    var k :| 0 <= k < |outs| && outs[k].commit == c && FirstMatch(names, outs[k]).Some? &&
      StoreAll(base.outputs, outs, names)[c] ==
      NewRow(outs[k], FirstMatch(names, outs[k]).value, Found(FirstMatch(names, outs[k]).value, outs[k].proof));
    RangeMembers(chain, base.ScannedIndex() + 1, chain.Size(), outs[k]);
    assert outs[k] == chain.Output(i);
    assert SoleOwner(chain.At(i).proof);
  }

  /** A wider list of accounts explains a partial result as well. */
  lemma PartialWidens(base: Db, chain: Chain, names: set<string>, wider: set<string>, db: Db)
    requires Partial(base, chain, names, db) && names <= wider
    ensures Partial(base, chain, wider, db)
  {
    hide RewindOutput; hide RowProgress;
    forall c | c in db.outputs && c !in base.outputs ensures NewMatch(base, chain, wider, c, db.outputs[c]) {
      assert NewMatch(base, chain, names, c, db.outputs[c]);
    }
  }

  /**
   Abort and retry: however far a tick got before the cursor write, and whoever registered meanwhile,
   running it again on the same snapshot ends exactly where one undisturbed tick would have ended that
   started with those registrations.
   */
  lemma AbortThenRetry(ws: seq<World>, rows: seq<AccountRow>)
    requires Trace(ws) && |ws| > 1 && ws[0].phase.Idle? && ws[0].chain.Valid()
    requires ListsAccounts(rows, ws[|ws| - 1].db.accounts)
    requires forall j :: 1 <= j < |ws| ==> (ws[j].phase.Discover? || ws[j].phase.Reconcile?)
    ensures var last := ws[|ws| - 1];
            TickOutcome(last.db, ws[0].chain, rows) ==
            TickOutcome(ws[0].db.(accounts := last.db.accounts), ws[0].chain, rows)
  {
    hide RewindOutput; hide StoreAll; hide Settle; hide Chain.UnspentRange; hide Partial; hide Trace;
    var base, chain, last := ws[0].db, ws[0].chain, ws[|ws| - 1].db;
    var names := CaughtUpNames(rows, base.PrevTip());
    LastIsPartial(ws, rows);
    PartialCursor(base, chain, NameSet(names), last);
    RerunOutputs(base, chain, names, last);
  }

  lemma PartialCursor(base: Db, chain: Chain, names: set<string>, db: Db)
    requires Partial(base, chain, names, db)
    ensures db.cursor == base.cursor
  {
  }

  /** The last state is a partial result for the accounts the retried tick will serve. */
  lemma LastIsPartial(ws: seq<World>, rows: seq<AccountRow>)
    requires Trace(ws) && |ws| > 1 && ws[0].phase.Idle? && ListsAccounts(rows, ws[|ws| - 1].db.accounts)
    requires forall j :: 1 <= j < |ws| ==> (ws[j].phase.Discover? || ws[j].phase.Reconcile?)
    ensures Partial(ws[0].db, ws[0].chain, NameSet(CaughtUpNames(rows, ws[0].db.PrevTip())), ws[|ws| - 1].db)
  {
    hide RewindOutput; hide Chain.UnspentRange; hide RowProgress; hide NewMatch; hide Trace;
    var base, last := ws[0].db, ws[|ws| - 1].db;
    var caughtUp := set rh | rh in base.accounts && base.CaughtUp(rh);
    forall j | 1 <= j < |ws| ensures BeforeCursor(ws[j].phase, caughtUp) {
      SameCaughtUp(ws, caughtUp, j);
    }
    TraceStaysPartial(ws, caughtUp, |ws| - 1);
    ListingSplits(last, rows);
    PartialWidens(base, ws[0].chain, caughtUp, NameSet(CaughtUpNames(rows, base.PrevTip())), last);
  }

  lemma {:induction false} SameCaughtUp(ws: seq<World>, names: set<string>, j: nat)
    requires Trace(ws) && 1 <= j < |ws| && ws[0].phase.Idle?
    requires forall k :: 1 <= k < |ws| ==> (ws[k].phase.Discover? || ws[k].phase.Reconcile?)
    requires forall rh :: rh in names <==> ws[0].db.CaughtUp(rh)
    ensures BeforeCursor(ws[j].phase, names)
  {
    hide RewindOutput; hide HarmedBy; hide CheckpointKept; hide ForksWithinDepth; hide AboveStillTrue; hide Chain.Live;
    assert Step(ws[j - 1], ws[j]);
    var e :| Enabled(ws[j - 1], e) && After(ws[j - 1], e) == ws[j];
    if j == 1 {
      assert ws[1].phase.caughtUp == names;
    } else {
      SameCaughtUp(ws, names, j - 1);
    }
  }

  /** A repair aborted after the clamp and run again is the repair run once. */
  lemma ReorgRetry(db: Db, next: Chain)
    ensures ReorgOutcome(db.Rollback(Fork(next)).ClampScans(Fork(next)), next) == ReorgOutcome(db, next)
  {
    var fork := Fork(next);
    var once := db.Rollback(fork).ClampScans(fork);
    assert once.Rollback(fork).outputs == once.outputs;
    assert once.ClampScans(fork).accounts == once.accounts;
  }

  /**
   Aborted after the cursor write: an account that lost nothing, and still counts as caught up, has everything;
   the rest is pending.
   */
  lemma AbortAfterCursor(w: World, rh: string)
    requires Reachable(w) && rh !in w.harmed && !w.phase.RolledBack? && !w.phase.Unclamped?
    requires CursorAtTip(w.db, w.chain) && rh in w.db.accounts
    ensures w.db.Behind(rh) || FullyStored(w.db, w.chain, rh)
  {
    hide RewindOutput;
    ReachableInv(w);
    assert WholeIn(w, rh);
  }
}
