/**
 The double-entry ledger: the three tables it writes, what one Transfer and one
 Reverse do to them, and the service whose methods do it statement by statement
 inside a database transaction.
 */
module Ledger {
  import opened Common
  import opened AccountOrder

  type TxId = string

  /** The columns of `accounts` that the ledger reads and writes. */
  datatype Account = Account(balance: int, version: int)

  datatype EntryType = DEBIT | CREDIT

  /** A row of `ledger_entries`; `balance` is the account's balance after the row. */
  datatype Entry = Entry(txId: TxId, account: AccountId, amount: int, entryType: EntryType, balance: int)

  datatype PaymentState = PENDING | SUCCESS | FAILED | REVERSED

  /** A row of `payment_states`. */
  datatype StateRow = StateRow(txId: TxId, state: PaymentState)

  /** Rows of both logs are kept in insertion order, which is their `created_at` order. */
  datatype Database = Database(accounts: map<AccountId, Account>, entries: seq<Entry>, states: seq<StateRow>)

  datatype LedgerError =
    | DatabaseError
    | NoRows
    | NoEntriesFound(txId: TxId)
    | OptimisticLockFailed(account: AccountId)

  // ---------- What the operations mean ----------

  function ReversalId(id: TxId): TxId {
    id + "_REVERSAL"
  }

  /** The account credited locally: the destination if it is known here, otherwise the system account. */
  function Resolve(accounts: map<AccountId, Account>, system: AccountId, to: AccountId): AccountId {
    if to in accounts then to else system
  }

  /** One leg: a ledger row carrying the new balance, and the account moved to it. */
  function Post(db: Database, id: TxId, account: AccountId, amount: int, entryType: EntryType): Database
    requires account in db.accounts
  {
    var row := db.accounts[account];
    var balance := row.balance + amount;
    db.(accounts := db.accounts[account := Account(balance, row.version + 1)],
        entries := db.entries + [Entry(id, account, amount, entryType, balance)])
  }

  predicate Transferable(db: Database, system: AccountId, from: AccountId, to: AccountId) {
    var credit := Resolve(db.accounts, system, to);
    from in db.accounts && credit in db.accounts && from != credit
  }

  function Transferred(db: Database, system: AccountId, from: AccountId, to: AccountId, id: TxId, amount: int): Database
    requires Transferable(db, system, from, to)
  {
    var credit := Resolve(db.accounts, system, to);
    var moved := Post(Post(db, id, from, -amount, DEBIT), id, credit, amount, CREDIT);
    moved.(states := db.states + [StateRow(id, PENDING), StateRow(id, SUCCESS)])
  }

  function EntriesOf(entries: seq<Entry>, id: TxId): (found: seq<Entry>)
    ensures forall e :: e in found ==> e in entries && e.txId == id
  {
    if entries == [] then []
    else
      var last := entries[|entries| - 1];
      var before := EntriesOf(entries[..|entries| - 1], id);
      if last.txId == id then before + [last] else before
  }

  function Opposite(entryType: EntryType): EntryType {
    if entryType == CREDIT then DEBIT else CREDIT
  }

  predicate AccountsKnown(accounts: map<AccountId, Account>, entries: seq<Entry>) {
    forall e :: e in entries ==> e.account in accounts
  }

  /** Posts the negation of each entry in turn, under transaction id `id`. */
  function Negated(db: Database, id: TxId, entries: seq<Entry>): (after: Database)
    requires AccountsKnown(db.accounts, entries)
    ensures after.accounts.Keys == db.accounts.Keys && after.states == db.states
  {
    if entries == [] then db
    else
      var last := entries[|entries| - 1];
      assert last in entries;
      Post(Negated(db, id, entries[..|entries| - 1]), id, last.account, -last.amount, Opposite(last.entryType))
  }

  lemma NegatedLast(db: Database, id: TxId, entries: seq<Entry>, last: Entry)
    requires entries != [] && last == entries[|entries| - 1] && AccountsKnown(db.accounts, entries)
    ensures last in entries
    ensures Negated(db, id, entries)
            == Post(Negated(db, id, entries[..|entries| - 1]), id, last.account, -last.amount, Opposite(last.entryType))
  {
  }

  lemma ExtendNegated(db: Database, id: TxId, entries: seq<Entry>, i: nat)
    requires i < |entries|
    requires AccountsKnown(db.accounts, entries[..i]) && entries[i].account in db.accounts
    ensures AccountsKnown(db.accounts, entries[..i + 1])
    ensures Negated(db, id, entries[..i + 1])
            == Post(Negated(db, id, entries[..i]), id, entries[i].account, -entries[i].amount,
                    Opposite(entries[i].entryType))
  {
    assert entries[..i + 1] == entries[..i] + [entries[i]];
    assert entries[..i + 1][..i] == entries[..i];
  }

  predicate Reversible(db: Database, id: TxId) {
    var found := EntriesOf(db.entries, id);
    found != [] && AccountsKnown(db.accounts, found)
  }

  function Reversed(db: Database, id: TxId): Database
    requires Reversible(db, id)
  {
    var negated := Negated(db, ReversalId(id), EntriesOf(db.entries, id));
    negated.(states := negated.states + [StateRow(id, REVERSED)])
  }

  // ---------- What that comes to ----------

  /** `amount` has gone from one account to the other, each version is one higher, and no other account has changed. */
  predicate Moves(before: map<AccountId, Account>, after: map<AccountId, Account>, from: AccountId, to: AccountId,
                  amount: int) {
    && from != to && from in before && to in before && after.Keys == before.Keys
    && after[from] == Account(before[from].balance - amount, before[from].version + 1)
    && after[to] == Account(before[to].balance + amount, before[to].version + 1)
    && forall a :: a in before && a != from && a != to ==> after[a] == before[a]
  }

  /** The debit row and the credit row of a transfer, each with the balance it leaves. */
  predicate TwoRows(rows: seq<Entry>, id: TxId, from: AccountId, to: AccountId, amount: int,
                    after: map<AccountId, Account>)
    requires from in after && to in after
  {
    rows == [Entry(id, from, -amount, DEBIT, after[from].balance), Entry(id, to, amount, CREDIT, after[to].balance)]
  }

  /** Everything a committed transfer does when `to` is the account credited. */
  predicate Transfers(before: Database, after: Database, from: AccountId, to: AccountId, id: TxId, amount: int) {
    && Moves(before.accounts, after.accounts, from, to, amount)
    && |after.entries| == |before.entries| + 2 && after.entries[..|before.entries|] == before.entries
    && TwoRows(after.entries[|before.entries|..], id, from, to, amount, after.accounts)
    && after.states == before.states + [StateRow(id, PENDING), StateRow(id, SUCCESS)]
  }

  /** A known destination is credited itself; for an unknown one the system account is. */
  predicate MovesWhereDue(before: map<AccountId, Account>, after: map<AccountId, Account>, system: AccountId,
                          from: AccountId, to: AccountId, amount: int)
  {
    && (to in before ==> Moves(before, after, from, to, amount))
    && (to !in before ==> Moves(before, after, from, system, amount))
  }

  lemma TransferredIs(db: Database, system: AccountId, from: AccountId, to: AccountId, id: TxId, amount: int)
    requires Transferable(db, system, from, to)
    ensures var after := Transferred(db, system, from, to, id, amount);
            && MovesWhereDue(db.accounts, after.accounts, system, from, to, amount)
            && (to in db.accounts ==> Transfers(db, after, from, to, id, amount))
            && (to !in db.accounts ==> Transfers(db, after, from, system, id, amount))
  {
  }

  /** A transfer is accepted exactly between two different known accounts, the second being the one that is due. */
  lemma TransferableExactly(db: Database, system: AccountId, from: AccountId, to: AccountId)
    ensures Transferable(db, system, from, to)
            <==> && from in db.accounts
                 && (to in db.accounts ==> from != to)
                 && (to !in db.accounts ==> system in db.accounts && from != system)
  {
  }

  /** Row by row: the same account, the opposite amount, the other type, and the id with the reversal suffix. */
  predicate Mirrors(rows: seq<Entry>, found: seq<Entry>, id: TxId) {
    && |rows| == |found|
    && forall i :: 0 <= i < |found| ==>
         && rows[i].txId == id && rows[i].account == found[i].account && rows[i].amount == -found[i].amount
         && rows[i].entryType != found[i].entryType
  }

  /** The log has grown by the mirror image of `found`. */
  predicate GrowsBy(before: seq<Entry>, after: seq<Entry>, found: seq<Entry>, id: TxId) {
    && |after| == |before| + |found| && after[..|before|] == before
    && Mirrors(after[|before|..], found, id)
  }

  lemma {:induction false} NegatedMirrors(db: Database, id: TxId, entries: seq<Entry>)
    requires AccountsKnown(db.accounts, entries)
    ensures GrowsBy(db.entries, Negated(db, id, entries).entries, entries, id)
  {
    if entries != [] {
      var n := |entries| - 1;
      NegatedLast(db, id, entries, entries[n]);
      NegatedMirrors(db, id, entries[..n]);
      OneMirrored(db, Negated(db, id, entries[..n]), Negated(db, id, entries), id, entries);
    }
  }

  lemma OneMirrored(db: Database, before: Database, after: Database, id: TxId, entries: seq<Entry>)
    requires entries != [] && entries[|entries| - 1].account in before.accounts
    requires GrowsBy(db.entries, before.entries, entries[..|entries| - 1], id)
    requires var e := entries[|entries| - 1];
             after == Post(before, id, e.account, -e.amount, Opposite(e.entryType))
    ensures GrowsBy(db.entries, after.entries, entries, id)
  {
    var rows, more := before.entries[|db.entries|..], after.entries[|db.entries|..];
    assert more[..|rows|] == rows;
  }

  // ---------- The service ----------

  /**
   `committed` is what every other session sees; `work` is the view of the open
   transaction. A statement reaches the database only while `healthy` is
   positive, so that quantifying over its initial value covers a database
   failure at every point of an operation.
   */
  class DoubleLedgerService {
    const systemFeeAccount: AccountId
    var committed: Database
    var work: Database
    var healthy: nat

    constructor (systemFeeAccount: AccountId, opening: Database, healthy: nat)
      ensures this.systemFeeAccount == systemFeeAccount
      ensures committed == opening && this.healthy == healthy
    {
      this.systemFeeAccount := systemFeeAccount;
      this.committed := opening;
      this.work := opening;
      this.healthy := healthy;
    }

    /** One round trip to the database. */
    method Statement() returns (ok: bool)
      modifies this`healthy
      ensures ok == (old(healthy) > 0)
      ensures healthy == if ok then old(healthy) - 1 else 0
    {
      ok := healthy > 0;
      if ok {
        healthy := healthy - 1;
      }
    }

    method AppendPaymentState(id: TxId, state: PaymentState) returns (ok: bool)
      modifies this`healthy, this`work
      ensures ok == (old(healthy) > 0)
      ensures healthy == if ok then old(healthy) - 1 else 0
      ensures work == if ok then old(work).(states := old(work).states + [StateRow(id, state)]) else old(work)
    {
      ok := Statement();
      if ok {
        work := work.(states := work.states + [StateRow(id, state)]);
      }
    }

    method LockAccount(id: AccountId) returns (row: Result<Account, LedgerError>)
      modifies this`healthy
      ensures healthy == if old(healthy) > 0 then old(healthy) - 1 else 0
      ensures row.Ok? <==> old(healthy) > 0 && id in work.accounts
      ensures row.Ok? ==> row.value == work.accounts[id]
      ensures old(healthy) > 0 && id !in work.accounts ==> row == Err(NoRows)
    {
      var ok := Statement();
      if !ok {
        return Err(DatabaseError);
      }
      if id !in work.accounts {
        return Err(NoRows);
      }
      return Ok(work.accounts[id]);
    }

    method CreateLedgerEntry(entry: Entry) returns (ok: bool)
      modifies this`healthy, this`work
      ensures ok == (old(healthy) > 0)
      ensures healthy == if ok then old(healthy) - 1 else 0
      ensures work == if ok then old(work).(entries := old(work).entries + [entry]) else old(work)
    {
      ok := Statement();
      if ok {
        work := work.(entries := work.entries + [entry]);
      }
    }

    /** The row is changed only where both its id and the version read earlier still match. */
    method UpdateAccountBalance(id: AccountId, newBalance: int, version: int) returns (err: Option<LedgerError>)
      modifies this`healthy, this`work
      ensures healthy == if old(healthy) > 0 then old(healthy) - 1 else 0
      ensures err.None? <==> old(healthy) > 0 && id in old(work).accounts && old(work).accounts[id].version == version
      ensures err.None? ==> work == old(work).(accounts := old(work).accounts[id := Account(newBalance, version + 1)])
      ensures err.Some? ==> work == old(work)
      ensures old(healthy) > 0 && err.Some? ==> err == Some(OptimisticLockFailed(id))
    {
      var ok := Statement();
      if !ok {
        return Some(DatabaseError);
      }
      var rowsAffected := 0;
      if id in work.accounts && work.accounts[id].version == version {
        work := work.(accounts := work.accounts[id := Account(newBalance, version + 1)]);
        rowsAffected := 1;
      }
      if rowsAffected == 0 {
        return Some(OptimisticLockFailed(id));
      }
      return None;
    }

    /**
     Moves `amount` inside the open transaction. On success the work view has
     moved by exactly the two legs; the second version check is what stops a
     transfer whose two sides are the same row.
     */
    method TransferTx(from: AccountId, to: AccountId, id: TxId, amount: int) returns (err: Option<LedgerError>)
      modifies this`healthy, this`work
      ensures err.None? ==> Transferable(old(work), systemFeeAccount, from, to)
      ensures err.None?
              ==> work == Transferred(old(work), systemFeeAccount, from, to, id, amount).(states := old(work).states)
      ensures err.None? ==> MovesWhereDue(old(work).accounts, work.accounts, systemFeeAccount, from, to, amount)
      ensures old(healthy) >= 7 ==> healthy >= old(healthy) - 7
      ensures old(healthy) >= 7 ==> (err.None? <==> Transferable(old(work), systemFeeAccount, from, to))
      ensures old(healthy) >= 7 && from in old(work).accounts
              && from == Resolve(old(work).accounts, systemFeeAccount, to)
              ==> err == Some(OptimisticLockFailed(from))
      ensures old(healthy) >= 7 && (from !in old(work).accounts
                                      || Resolve(old(work).accounts, systemFeeAccount, to) !in old(work).accounts)
              ==> err == Some(NoRows)
    {
      var localCreditId := to;
      var ok := Statement();
      if !ok {
        return Some(DatabaseError);
      }
      if to !in work.accounts {
        localCreditId := systemFeeAccount;
      }

      var firstLock, secondLock := from, localCreditId;
      if Less(localCreditId, from) {
        firstLock, secondLock := localCreditId, from;
      }
      var first := LockAccount(firstLock);
      if first.Err? {
        return Some(first.error);
      }
      var second := LockAccount(secondLock);
      if second.Err? {
        return Some(second.error);
      }
      var fromAccount, toAccount := first.value, second.value;
      if firstLock != from {
        fromAccount, toAccount := toAccount, fromAccount;
      }

      ok := CreateLedgerEntry(Entry(id, from, -amount, DEBIT, fromAccount.balance - amount));
      if !ok {
        return Some(DatabaseError);
      }
      ok := CreateLedgerEntry(Entry(id, localCreditId, amount, CREDIT, toAccount.balance + amount));
      if !ok {
        return Some(DatabaseError);
      }
      err := UpdateAccountBalance(from, fromAccount.balance - amount, fromAccount.version);
      if err.Some? {
        return;
      }
      err := UpdateAccountBalance(localCreditId, toAccount.balance + amount, toAccount.version);
    }

    /** Commits the two legs with their PENDING and SUCCESS rows, or changes nothing that anyone can see. */
    method Transfer(from: AccountId, to: AccountId, id: TxId, amount: int) returns (err: Option<LedgerError>)
      modifies this
      ensures err.None? ==> Transferable(old(committed), systemFeeAccount, from, to)
      ensures err.None? ==> committed == Transferred(old(committed), systemFeeAccount, from, to, id, amount)
      ensures err.None? && to in old(committed).accounts ==> Transfers(old(committed), committed, from, to, id, amount)
      ensures err.None? && to !in old(committed).accounts
              ==> Transfers(old(committed), committed, from, systemFeeAccount, id, amount)
      ensures err.Some? ==> committed == old(committed)
      ensures old(healthy) >= 11 ==> (err.None? <==> Transferable(old(committed), systemFeeAccount, from, to))
      ensures from == Resolve(old(committed).accounts, systemFeeAccount, to) ==> err.Some?
      ensures old(healthy) >= 11 && from in old(committed).accounts
              && from == Resolve(old(committed).accounts, systemFeeAccount, to)
              ==> err == Some(OptimisticLockFailed(from))
    {
      var ok := Statement();
      if !ok {
        return Some(DatabaseError);
      }
      work := committed;
      ok := AppendPaymentState(id, PENDING);
      if !ok {
        return Some(DatabaseError);
      }
      err := TransferTx(from, to, id, amount);
      if err.Some? {
        ok := AppendPaymentState(id, FAILED);
        return;
      }
      ok := AppendPaymentState(id, SUCCESS);
      if !ok {
        return Some(DatabaseError);
      }
      ok := Statement();
      if !ok {
        return Some(DatabaseError);
      }
      TransferredIs(committed, systemFeeAccount, from, to, id, amount);
      committed := work;
    }

    /** One turn of the loop in `Reverse`: lock the row as it now is, then post the negation. */
    method ReverseEntry(reversalId: TxId, e: Entry) returns (err: Option<LedgerError>)
      modifies this`healthy, this`work
      ensures err.None? ==> e.account in old(work).accounts
      ensures err.None? ==> work == Post(old(work), reversalId, e.account, -e.amount, Opposite(e.entryType))
      ensures err.None? ==> GrowsBy(old(work).entries, work.entries, [e], reversalId)
      ensures err.None? ==> old(healthy) >= 3 && healthy == old(healthy) - 3
      ensures old(healthy) >= 3 ==> (err.None? <==> e.account in old(work).accounts)
    {
      var locked := LockAccount(e.account);
      if locked.Err? {
        return Some(locked.error);
      }
      var account := locked.value;
      var reversalAmount := -e.amount;
      var reversalType := CREDIT;
      if e.entryType == CREDIT {
        reversalType := DEBIT;
      }
      var newBalance := account.balance + reversalAmount;
      var ok := CreateLedgerEntry(Entry(reversalId, e.account, reversalAmount, reversalType, newBalance));
      if !ok {
        return Some(DatabaseError);
      }
      err := UpdateAccountBalance(e.account, newBalance, account.version);
    }

    /** The loop of `Reverse`: each account is re-read after the previous update. */
    method ReverseEntries(reversalId: TxId, entries: seq<Entry>) returns (err: Option<LedgerError>)
      modifies this`healthy, this`work
      ensures err.None? ==> AccountsKnown(old(work).accounts, entries)
      ensures err.None? ==> work == Negated(old(work), reversalId, entries)
      ensures err.None? ==> GrowsBy(old(work).entries, work.entries, entries, reversalId)
      ensures err.None? ==> healthy == old(healthy) - 3 * |entries|
      ensures old(healthy) >= 3 * |entries| ==> (err.None? <==> AccountsKnown(old(work).accounts, entries))
    {
      ghost var start := work;
      err := None;
      var i := 0;
      while i < |entries|
        invariant 0 <= i <= |entries|
        invariant AccountsKnown(start.accounts, entries[..i])
        invariant work == Negated(start, reversalId, entries[..i])
        invariant healthy == old(healthy) - 3 * i
        invariant err.None?
      {
        ghost var known := entries[i].account in start.accounts;
        err := ReverseEntry(reversalId, entries[i]);
        if err.Some? {
          assert old(healthy) >= 3 * |entries| ==> !known;
          return;
        }
        ExtendNegated(start, reversalId, entries, i);
        i := i + 1;
      }
      assert entries[..i] == entries;
      NegatedMirrors(start, reversalId, entries);
    }

    /** Replays the entries of `id` negated, under the id with the reversal suffix. */
    method Reverse(id: TxId) returns (err: Option<LedgerError>)
      modifies this
      ensures err.None? ==> Reversible(old(committed), id) && committed == Reversed(old(committed), id)
      ensures err.None? ==> GrowsBy(old(committed).entries, committed.entries, EntriesOf(old(committed).entries, id),
                                    id + "_REVERSAL")
      ensures err.None? ==> committed.states == old(committed).states + [StateRow(id, REVERSED)]
      ensures err.Some? ==> committed == old(committed)
      ensures old(healthy) >= 4 + 3 * |EntriesOf(old(committed).entries, id)|
              ==> (err.None? <==> Reversible(old(committed), id))
      ensures old(healthy) >= 2 && EntriesOf(old(committed).entries, id) == [] ==> err == Some(NoEntriesFound(id))
    {
      var ok := Statement();
      if !ok {
        return Some(DatabaseError);
      }
      work := committed;
      ok := Statement();
      if !ok {
        return Some(DatabaseError);
      }
      var entries := EntriesOf(work.entries, id);
      if entries == [] {
        return Some(NoEntriesFound(id));
      }
      err := ReverseEntries(ReversalId(id), entries);
      if err.Some? {
        return;
      }
      ok := AppendPaymentState(id, REVERSED);
      if !ok {
        return Some(DatabaseError);
      }
      ok := Statement();
      if !ok {
        return Some(DatabaseError);
      }
      committed := work;
    }
  }
}
