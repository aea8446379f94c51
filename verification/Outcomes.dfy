/** What one completed scan pass, reconcile and tick leave in the database, as functions. */
module Outcomes {
  import opened Basics
  import opened Rewind
  import opened Chains
  import opened Tables
  import opened Stores
  import opened Protocol

  /** The first listed account the output opens for. */
  function FirstMatch(accounts: seq<string>, out: ChainOutput): (rh: Option<string>)
    ensures rh.Some? ==> rh.value in accounts && Opens(rh.value, out.proof)
    ensures rh.None? ==> forall a :: a in accounts ==> !Opens(a, out.proof)
  {
    if |accounts| == 0 then None
    else if Opens(accounts[0], out.proof) then Some(accounts[0])
    else FirstMatch(accounts[1..], out)
  }

  /** No account listed before the match opens the output. */
  lemma {:induction false} FirstMatchIsFirst(accounts: seq<string>, out: ChainOutput) returns (k: nat)
    requires FirstMatch(accounts, out).Some?
    ensures k < |accounts| && accounts[k] == FirstMatch(accounts, out).value && Opens(accounts[k], out.proof)
    ensures forall j :: 0 <= j < k ==> !Opens(accounts[j], out.proof)
  {
    if Opens(accounts[0], out.proof) {
      k := 0;
    } else {
      var rest := FirstMatchIsFirst(accounts[1..], out);
      k := rest + 1;
    }
  }

  function StoreOne(outputs: Outputs, out: ChainOutput, accounts: seq<string>): Outputs {
    match FirstMatch(accounts, out)
    case None => outputs
    case Some(rh) => Insert(outputs, out.commit, NewRow(out, rh, Found(rh, out.proof)))
  }

  /** Outputs offered in order to a list of accounts. */
  function StoreAll(outputs: Outputs, outs: seq<ChainOutput>, accounts: seq<string>): Outputs {
    if |outs| == 0 then outputs
    else StoreOne(StoreAll(outputs, outs[..|outs| - 1], accounts), outs[|outs| - 1], accounts)
  }

  lemma StoreAllSnoc(outputs: Outputs, outs: seq<ChainOutput>, out: ChainOutput, accounts: seq<string>)
    ensures StoreAll(outputs, outs + [out], accounts) == StoreOne(StoreAll(outputs, outs, accounts), out, accounts)
  {
    assert (outs + [out])[..|outs|] == outs;
  }

  lemma {:induction false} StoreAllConcat(outputs: Outputs, a: seq<ChainOutput>, b: seq<ChainOutput>,
                                        accounts: seq<string>)
    ensures StoreAll(outputs, a + b, accounts) == StoreAll(StoreAll(outputs, a, accounts), b, accounts)
  {
    if |b| == 0 {
      assert a + b == a;
    } else {
      StoreAllConcat(outputs, a, b[..|b| - 1], accounts);
      assert (a + b)[..|a + b| - 1] == a + b[..|b| - 1];
    }
  }

  /** What a pass adds: exactly the commitments of matching outputs, each row freshly built. */
  lemma {:induction false} StoreAllMembers(outputs: Outputs, outs: seq<ChainOutput>, accounts: seq<string>, c: string)
    ensures c in outputs ==>
              c in StoreAll(outputs, outs, accounts) && StoreAll(outputs, outs, accounts)[c] == outputs[c]
    ensures c in StoreAll(outputs, outs, accounts) && c !in outputs ==>
              exists k :: 0 <= k < |outs| && outs[k].commit == c && FirstMatch(accounts, outs[k]).Some? &&
                StoreAll(outputs, outs, accounts)[c] ==
                NewRow(outs[k], FirstMatch(accounts, outs[k]).value,
                  Found(FirstMatch(accounts, outs[k]).value, outs[k].proof))
    ensures forall k :: 0 <= k < |outs| && outs[k].commit == c && FirstMatch(accounts, outs[k]).Some? ==>
              c in StoreAll(outputs, outs, accounts)
  {
    hide RewindOutput; hide FirstMatch; hide NewRow;
    if |outs| > 0 {
      StoreAllMembers(outputs, outs[..|outs| - 1], accounts, c);
    }
  }

  /** Whatever was there before, an offered match ends up stored. */
  lemma StoreAllGrows(outputs: Outputs, outs: seq<ChainOutput>, accounts: seq<string>)
    ensures forall c :: c in StoreAll(map[], outs, accounts) ==> c in StoreAll(outputs, outs, accounts)
    ensures outputs.Keys <= StoreAll(outputs, outs, accounts).Keys
  {
    forall c ensures c in StoreAll(map[], outs, accounts) ==> c in StoreAll(outputs, outs, accounts)
             ensures c in outputs ==> c in StoreAll(outputs, outs, accounts) {
      StoreAllMembers(map[], outs, accounts, c);
      StoreAllMembers(outputs, outs, accounts, c);
    }
  }

  /** A live output of a listed account, inside the offered range, is stored. */
  lemma OfferedIsStored(outputs: Outputs, chain: Chain, lo: nat, hi: nat, accounts: seq<string>, rh: string, i: nat)
    requires chain.Funds(rh, i) && rh in accounts && lo <= i <= hi
    ensures chain.At(i).commit in StoreAll(outputs, chain.UnspentRange(lo, hi), accounts)
  {
    var outs := chain.UnspentRange(lo, hi);
    RangeMembers(chain, lo, hi, chain.Output(i));
    var k :| 0 <= k < |outs| && outs[k] == chain.Output(i);
    StoreAllMembers(outputs, outs, accounts, outs[k].commit);
  }

  /** Spends found by absence: unspent rows whose commitment left the unspent set. */
  function Settle(outputs: Outputs, chain: Chain): Outputs {
    map c | c in outputs ::
      if !outputs[c].spent && !chain.Live(c) then Spend(outputs[c], chain.Tip()) else outputs[c]
  }

  /** Each row that was unspent and whose output the chain lacks gets the flag and the tip, and nothing else changes. */
  lemma SettleExactly(outputs: Outputs, chain: Chain)
    ensures Settle(outputs, chain).Keys == outputs.Keys
    ensures forall c :: c in outputs ==>
              Settle(outputs, chain)[c] == if !outputs[c].spent && !chain.Live(c)
                                           then outputs[c].(spent := true, spentHeight := Some(chain.Tip()))
                                           else outputs[c]
  {
  }

  /** Reconciling restricted to some commitments. */
  function SettleSome(outputs: Outputs, chain: Chain, checked: seq<string>): Outputs {
    map c | c in outputs ::
      if c in checked && !outputs[c].spent && !chain.Live(c) then Spend(outputs[c], chain.Tip()) else outputs[c]
  }

  lemma SettleNone(outputs: Outputs, chain: Chain)
    ensures SettleSome(outputs, chain, []) == outputs
  {
  }

  lemma SettleOne(outputs: Outputs, chain: Chain, checked: seq<string>, c: string)
    requires c in outputs && !outputs[c].spent && !chain.Live(c)
    ensures SettleSome(outputs, chain, checked + [c]) ==
            MarkSpent(SettleSome(outputs, chain, checked), c, chain.Tip())
  {
  }

  lemma SettleLive(outputs: Outputs, chain: Chain, checked: seq<string>, c: string)
    requires chain.Live(c)
    ensures SettleSome(outputs, chain, checked + [c]) == SettleSome(outputs, chain, checked)
  {
  }

  /** Checking every unspent row is reconciling. */
  lemma SettleEvery(outputs: Outputs, chain: Chain, checked: seq<string>)
    requires forall c :: c in outputs && !outputs[c].spent ==> c in checked
    ensures SettleSome(outputs, chain, checked) == Settle(outputs, chain)
  {
  }

  lemma SettledRowsLive(outputs: Outputs, chain: Chain)
    ensures forall c :: c in Settle(outputs, chain) && !Settle(outputs, chain)[c].spent ==> chain.Live(c)
  {
  }

  function NameSet(names: seq<string>): set<string> {
    set rh | rh in names
  }

  /** The accounts the forward scan serves. */
  function CaughtUpNames(rows: seq<AccountRow>, prevTip: nat): seq<string> {
    if |rows| == 0 then []
    else (if rows[0].scan >= prevTip then [rows[0].rewindHash] else []) + CaughtUpNames(rows[1..], prevTip)
  }

  /** The account to backfill: the first one listed that is behind. */
  function FirstBehind(rows: seq<AccountRow>, prevTip: nat): (r: Option<AccountRow>)
    ensures r.Some? ==> r.value in rows && r.value.scan < prevTip
    ensures r.None? ==> forall row :: row in rows ==> row.scan >= prevTip
  {
    if |rows| == 0 then None
    else if rows[0].scan < prevTip then Some(rows[0])
    else FirstBehind(rows[1..], prevTip)
  }

  /** Every account listed before the one to backfill is caught up. */
  lemma {:induction false} FirstBehindIsFirst(rows: seq<AccountRow>, prevTip: nat) returns (k: nat)
    requires FirstBehind(rows, prevTip).Some?
    ensures k < |rows| && rows[k] == FirstBehind(rows, prevTip).value && rows[k].scan < prevTip
    ensures forall j :: 0 <= j < k ==> rows[j].scan >= prevTip
  {
    if rows[0].scan < prevTip {
      k := 0;
    } else {
      var rest := FirstBehindIsFirst(rows[1..], prevTip);
      k := rest + 1;
    }
  }

  /** The account the tick backfills, if any. */
  function Chosen(rows: seq<AccountRow>, prevTip: nat): set<string> {
    match FirstBehind(rows, prevTip)
    case None => {}
    case Some(row) => {row.rewindHash}
  }

  lemma {:induction false} CaughtUpNamesMembers(rows: seq<AccountRow>, prevTip: nat, rh: string)
    ensures rh in CaughtUpNames(rows, prevTip) <==>
            exists k :: 0 <= k < |rows| && rows[k].rewindHash == rh && rows[k].scan >= prevTip
  {
    if |rows| > 0 {
      CaughtUpNamesMembers(rows[1..], prevTip, rh);
      if k :| 0 <= k < |rows| && rows[k].rewindHash == rh && rows[k].scan >= prevTip {
        if k > 0 { assert rows[1..][k - 1] == rows[k]; }
      }
      if k :| 0 <= k < |rows[1..]| && rows[1..][k].rewindHash == rh && rows[1..][k].scan >= prevTip {
        assert rows[k + 1] == rows[1..][k];
      }
    }
  }

  /** The accounts table after the caught-up accounts, and the backfilled one, reach `tip`. */
  function Advanced(accounts: map<string, Account>, names: seq<string>, tip: nat): map<string, Account> {
    map rh | rh in accounts :: if rh in names then accounts[rh].(scan := tip) else accounts[rh]
  }

  lemma AdvanceNone(accounts: map<string, Account>, tip: nat)
    ensures Advanced(accounts, [], tip) == accounts
  {
  }

  function NewOutputs(db: Db, chain: Chain): seq<ChainOutput> {
    chain.UnspentRange(db.ScannedIndex() + 1, chain.Size())
  }

  /** The database after Phases 1 to 3 of a tick on `chain` that listed `rows`. */
  function Scanned(db: Db, chain: Chain, rows: seq<AccountRow>): Db {
    var names := CaughtUpNames(rows, db.PrevTip());
    Db(Advanced(db.accounts, names, chain.Tip()),
       Settle(StoreAll(db.outputs, NewOutputs(db, chain), names), chain),
       Some(Cursor(Max(chain.Size(), db.ScannedIndex()), chain.Tip(), chain.HashAt(chain.Tip()))))
  }

  /** The database after Phase 4 for this account. */
  function Backfilled(db: Db, chain: Chain, row: AccountRow): Db {
    var outs := chain.UnspentRange(chain.FirstIndex(row.start), chain.Size());
    db.(outputs := StoreAll(db.outputs, outs, [row.rewindHash])).SetScan(row.rewindHash, chain.Tip())
  }

  /** The database after a completed tick that saw no reorganization. */
  function TickOutcome(db: Db, chain: Chain, rows: seq<AccountRow>): Db {
    var d := Scanned(db, chain, rows);
    match FirstBehind(rows, db.PrevTip())
    case None => d
    case Some(row) => Backfilled(d, chain, row)
  }

  /** The database after a completed reorganization repair. */
  function ReorgOutcome(db: Db, chain: Chain): Db {
    var fork := Fork(chain);
    db.Rollback(fork).ClampScans(fork).SetCursor(SaturatingSub(chain.FirstIndex(fork), 1), fork, chain.HashAt(fork))
  }
}
