/** The three tables as a value, and the effect of each statement on them (src/db.rs). */
module Tables {
  import opened Basics
  import opened Text
  import opened Rewind
  import opened Chains

  /** Blocks until a coinbase output may be spent. */
  const COINBASE_MATURITY: u64 := 1440

  datatype Account = Account(start: nat, scan: nat)

  /** A stored output. The `value` and `n_child` columns hold `AmountColumn(row)` and `NChildColumn(row.nChild)`. */
  datatype Row = Row(
    owner: string, value: u64, height: nat, mmrIndex: nat, isCoinbase: bool, lockHeight: nat,
    keyId: string, nChild: u32, spent: bool, spentHeight: Option<nat>)

  datatype Cursor = Cursor(mmrIndex: nat, tipHeight: nat, tipHash: string)

  // ---- columns ----

  function LockHeight(height: u64, isCoinbase: bool): u64 {
    if isCoinbase then SaturatingAdd(height, COINBASE_MATURITY) else height
  }

  /** The amount as bound by the insert: decimal text. */
  function AmountColumn(row: Row): string {
    Decimal(row.value)
  }

  /** `n as i32`. */
  function NChildColumn(n: u32): int {
    if n < TWO_TO_THE_31 then n else n - TWO_TO_THE_32
  }

  /** Reading the column back clamps a negative number to zero. */
  function ReadNChild(column: int): int {
    Max(column, 0)
  }

  /** The child number survives the column exactly below 2^31. */
  lemma NChildRoundTripsIff(n: u32)
    ensures ReadNChild(NChildColumn(n)) == n <==> n < TWO_TO_THE_31
  {
  }

  function NewRow(out: ChainOutput, owner: string, found: Recovered): Row {
    Row(owner, found.value, out.height, out.mmrIndex, out.isCoinbase,
        LockHeight(Min(out.height, TWO_TO_THE_64 - 1), out.isCoinbase),
        found.keyId, found.nChild, false, None)
  }

  // ---- outputs ----

  type Outputs = map<string, Row>

  /** INSERT ... ON CONFLICT DO NOTHING. */
  function Insert(outputs: Outputs, commit: string, row: Row): Outputs {
    if commit in outputs then outputs else outputs[commit := row]
  }

  function Spend(row: Row, height: nat): Row {
    row.(spent := true, spentHeight := Some(height))
  }

  function MarkSpent(outputs: Outputs, commit: string, height: nat): Outputs {
    if commit in outputs then outputs[commit := Spend(outputs[commit], height)] else outputs
  }

  /** Whether a recorded spend lies above the fork (SQL comparison: false on NULL). */
  predicate SpentAbove(row: Row, fork: nat) {
    row.spentHeight.Some? && row.spentHeight.value > fork
  }

  function RollbackRow(row: Row, fork: nat): Row {
    if SpentAbove(row, fork) then row.(spent := false, spentHeight := None) else row
  }

  // ---- the whole database ----

  datatype Db = Db(accounts: map<string, Account>, outputs: Outputs, cursor: Option<Cursor>) {

    function PrevTip(): nat {
      if cursor.Some? then cursor.value.tipHeight else 0
    }

    function ScannedIndex(): nat {
      if cursor.Some? then cursor.value.mmrIndex else 0
    }

    predicate CaughtUp(rh: string) {
      rh in accounts && accounts[rh].scan >= PrevTip()
    }

    predicate Behind(rh: string) {
      rh in accounts && accounts[rh].scan < PrevTip()
    }

    function Register(rh: string, start: nat): Db {
      if rh in accounts then this else this.(accounts := accounts[rh := Account(start, start)])
    }

    function SetScan(rh: string, height: nat): Db {
      if rh in accounts then this.(accounts := accounts[rh := accounts[rh].(scan := height)]) else this
    }

    function ClampScans(fork: nat): Db {
      this.(accounts := map rh | rh in accounts ::
        if accounts[rh].scan > fork then accounts[rh].(scan := fork) else accounts[rh])
    }

    /** Deletes unconditionally, lowers the scan height only if it is above the target. */
    function Rescan(rh: string, height: nat): Db {
      this.(
        outputs := map c | c in outputs && !(outputs[c].owner == rh && outputs[c].height >= height) :: outputs[c],
        accounts := if rh in accounts && accounts[rh].scan > height
                    then accounts[rh := accounts[rh].(scan := height)] else accounts)
    }

    function Rollback(fork: nat): Db {
      this.(outputs := map c | c in outputs && outputs[c].height <= fork :: RollbackRow(outputs[c], fork))
    }

    function SetCursor(mmrIndex: nat, tipHeight: nat, tipHash: string): Db {
      this.(cursor := Some(Cursor(mmrIndex, tipHeight, tipHash)))
    }
  }

  /** A registration adds exactly one account, at the named birthday and scanned up to it; a known one is left alone. */
  lemma RegisterExactly(db: Db, rh: string, start: nat)
    ensures var d := db.Register(rh, start);
            && d.accounts.Keys == db.accounts.Keys + {rh} && d.outputs == db.outputs && d.cursor == db.cursor
            && (rh !in db.accounts ==> d.accounts[rh].start == start && d.accounts[rh].scan == start)
            && forall a :: a in db.accounts ==> d.accounts[a] == db.accounts[a]
  {
  }

  /** A rescan deletes the account's rows at or above the target, all of them and no other, whatever its scan height. */
  lemma RescanExactly(db: Db, rh: string, height: nat)
    ensures var d := db.Rescan(rh, height);
            && (forall c :: c in d.outputs <==>
                  c in db.outputs && !(db.outputs[c].owner == rh && db.outputs[c].height >= height))
            && (forall c :: c in d.outputs ==> d.outputs[c] == db.outputs[c])
            && d.accounts.Keys == db.accounts.Keys && d.cursor == db.cursor
            && (rh in db.accounts ==>
                  d.accounts[rh].start == db.accounts[rh].start
                  && d.accounts[rh].scan == Min(db.accounts[rh].scan, height))
            && forall a :: a in db.accounts && a != rh ==> d.accounts[a] == db.accounts[a]
  {
  }

  /** `after` is `before` plus registrations: each new account starts scanned up to its birthday. */
  ghost predicate Registered(before: Db, after: Db) {
    && after.outputs == before.outputs && after.cursor == before.cursor
    && before.accounts.Keys <= after.accounts.Keys
    && (forall rh :: rh in before.accounts ==> after.accounts[rh] == before.accounts[rh])
    && (forall rh :: rh in after.accounts && rh !in before.accounts ==>
          after.accounts[rh].scan == after.accounts[rh].start)
  }
}
