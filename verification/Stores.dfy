/** The database the server and the scanner share (src/db.rs). */
module Stores {
  import opened Basics
  import opened Tables

  datatype AccountRow = AccountRow(rewindHash: string, start: nat, scan: nat)

  /** What happens while the scanner waits: registrations land, and the statement may fail. */
  datatype Turn = Turn(arrivals: seq<(string, nat)>, fault: bool)

  function Names(rows: seq<AccountRow>): (names: seq<string>)
    ensures |names| == |rows|
  {
    seq(|rows|, k requires 0 <= k < |rows| => rows[k].rewindHash)
  }

  /** The row shows this account's present columns. */
  predicate Shows(row: AccountRow, accounts: map<string, Account>) {
    row.rewindHash in accounts && accounts[row.rewindHash] == Account(row.start, row.scan)
  }

  /** The rows are the accounts, each once, in some order. */
  ghost predicate ListsAccounts(rows: seq<AccountRow>, accounts: map<string, Account>) {
    && (forall k :: 0 <= k < |rows| ==> Shows(rows[k], accounts))
    && (forall j, k :: 0 <= j < k < |rows| ==> rows[j].rewindHash != rows[k].rewindHash)
    && (forall rh :: rh in accounts ==> rh in Names(rows))
  }

  class Store {
    var accounts: map<string, Account>
    var outputs: map<string, Row>
    var cursor: Option<Cursor>
    /** The rest of the world, one entry per wait; nothing more happens once it runs out. */
    var schedule: seq<Turn>

    ghost function Contents(): Db
      reads this
    {
      Db(accounts, outputs, cursor)
    }

    constructor (schedule: seq<Turn>)
      ensures Contents() == Db(map[], map[], None) && this.schedule == schedule
    {
      accounts, outputs, cursor := map[], map[], None;
      this.schedule := schedule;
    }

    // ---- accounts ----

    method RegisterAccount(rh: string, start: nat) returns (added: bool)
      modifies this`accounts
      ensures Contents() == old(Contents()).Register(rh, start)
      ensures added <==> rh !in old(accounts)
      ensures rh in accounts && accounts.Keys == old(accounts).Keys + {rh}
      ensures added ==> accounts[rh].start == start && accounts[rh].scan == start
      ensures forall a :: a in old(accounts) ==> accounts[a] == old(accounts)[a]
    {
      added := rh !in accounts;
      if added {
        accounts := accounts[rh := Account(start, start)];
      }
    }

    method ListAccounts() returns (rows: seq<AccountRow>)
      ensures ListsAccounts(rows, accounts)
    {
      rows := [];
      var rest := accounts.Keys;
      while rest != {}
        invariant rest <= accounts.Keys
        invariant forall k :: 0 <= k < |rows| ==> Shows(rows[k], accounts) && rows[k].rewindHash !in rest
        invariant forall j, k :: 0 <= j < k < |rows| ==> rows[j].rewindHash != rows[k].rewindHash
        invariant forall rh :: rh in accounts && rh !in rest ==> rh in Names(rows)
        decreases rest
      {
        var rh :| rh in rest;
        ghost var shorter := rows;
        rows := rows + [AccountRow(rh, accounts[rh].start, accounts[rh].scan)];
        assert Names(rows) == Names(shorter) + [rh];
        rest := rest - {rh};
      }
    }

    method SetAccountScanHeight(rh: string, height: nat)
      modifies this`accounts
      ensures Contents() == old(Contents()).SetScan(rh, height)
      ensures accounts.Keys == old(accounts).Keys
      ensures rh in accounts ==> accounts[rh].scan == height && accounts[rh].start == old(accounts)[rh].start
      ensures forall a :: a in accounts && a != rh ==> accounts[a] == old(accounts)[a]
    {
      if rh in accounts {
        accounts := accounts[rh := accounts[rh].(scan := height)];
      }
    }

    method ClampAccountScanHeights(fork: nat)
      modifies this`accounts
      ensures Contents() == old(Contents()).ClampScans(fork)
      ensures accounts.Keys == old(accounts).Keys
      ensures forall a :: a in accounts ==>
                && accounts[a].start == old(accounts)[a].start
                && accounts[a].scan == Min(old(accounts)[a].scan, fork)
    {
      accounts := map rh | rh in accounts ::
        if accounts[rh].scan > fork then accounts[rh].(scan := fork) else accounts[rh];
    }

    method RescanAccount(rh: string, height: nat)
      modifies this`accounts, this`outputs
      ensures Contents() == old(Contents()).Rescan(rh, height)
      ensures forall c :: c in outputs <==>
                c in old(outputs) && !(old(outputs)[c].owner == rh && old(outputs)[c].height >= height)
      ensures forall c :: c in outputs ==> outputs[c] == old(outputs)[c]
      ensures accounts.Keys == old(accounts).Keys
      ensures rh in accounts ==>
                accounts[rh].start == old(accounts)[rh].start
                  && accounts[rh].scan == Min(old(accounts)[rh].scan, height)
      ensures forall a :: a in accounts && a != rh ==> accounts[a] == old(accounts)[a]
    {
      outputs := map c | c in outputs && !(outputs[c].owner == rh && outputs[c].height >= height) :: outputs[c];
      if rh in accounts && accounts[rh].scan > height {
        accounts := accounts[rh := accounts[rh].(scan := height)];
      }
    }

    // ---- outputs ----

    method InsertOutput(commit: string, row: Row)
      modifies this`outputs
      ensures outputs == Insert(old(outputs), commit, row)
      ensures outputs.Keys == old(outputs).Keys + {commit}
      ensures outputs[commit] == if commit in old(outputs) then old(outputs)[commit] else row
      ensures forall c :: c in old(outputs) ==> outputs[c] == old(outputs)[c]
    {
      if commit !in outputs {
        outputs := outputs[commit := row];
      }
    }

    method SpendOutput(commit: string, height: nat)
      modifies this`outputs
      ensures outputs == MarkSpent(old(outputs), commit, height)
      ensures outputs.Keys == old(outputs).Keys
      ensures commit in outputs ==> outputs[commit] == old(outputs)[commit].(spent := true, spentHeight := Some(height))
      ensures forall c :: c in outputs && c != commit ==> outputs[c] == old(outputs)[c]
    {
      if commit in outputs {
        outputs := outputs[commit := outputs[commit].(spent := true, spentHeight := Some(height))];
      }
    }

    method AllUnspentCommits() returns (commits: seq<string>)
      ensures forall c :: c in commits <==> c in outputs && !outputs[c].spent
    {
      commits := [];
      var rest := outputs.Keys;
      while rest != {}
        invariant rest <= outputs.Keys
        invariant forall c :: c in commits <==> c in outputs.Keys - rest && !outputs[c].spent
        decreases rest
      {
        var c :| c in rest;
        if !outputs[c].spent {
          commits := commits + [c];
        }
        rest := rest - {c};
      }
    }

    method RollbackTo(fork: nat)
      modifies this`outputs
      ensures Contents() == old(Contents()).Rollback(fork)
      ensures forall c :: c in outputs <==> c in old(outputs) && old(outputs)[c].height <= fork
      ensures forall c :: c in outputs ==>
                var was := old(outputs)[c];
                outputs[c] == if was.spentHeight.Some? && was.spentHeight.value > fork
                              then was.(spent := false, spentHeight := None) else was
    {
      outputs := map c | c in outputs && outputs[c].height <= fork :: outputs[c];
      outputs := map c | c in outputs :: RollbackRow(outputs[c], fork);
    }

    // ---- cursor ----

    method GetCursor() returns (c: Option<Cursor>)
      ensures c == cursor
    {
      c := cursor;
    }

    method SetCursor(mmrIndex: nat, tipHeight: nat, tipHash: string)
      modifies this`cursor
      ensures Contents() == old(Contents()).SetCursor(mmrIndex, tipHeight, tipHash)
      ensures cursor == Some(Cursor(mmrIndex, tipHeight, tipHash))
    {
      cursor := Some(Cursor(mmrIndex, tipHeight, tipHash));
    }

    // ---- waiting ----

    /** Registration requests that land while the scanner is suspended. */
    method Yield() returns (fault: bool)
      modifies this`accounts, this`schedule
      ensures Registered(old(Contents()), Contents())
      ensures old(schedule) == [] ==> schedule == [] && !fault && accounts == old(accounts)
    {
      fault := false;
      if |schedule| > 0 {
        var turn := schedule[0];
        for k := 0 to |turn.arrivals|
          invariant Registered(old(Contents()), Contents()) && schedule == old(schedule)
        {
          var _ := RegisterAccount(turn.arrivals[k].0, turn.arrivals[k].1);
        }
        fault := turn.fault;
        schedule := schedule[1..];
      }
    }
  }
}
