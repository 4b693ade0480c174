/**
 What every run of the ledger keeps: cached balances agree with the log, every
 transaction id sums to zero, the total never changes, and the payment-state
 log is made of matched rows.
 */
module LedgerRuns {
  import opened AccountOrder
  import opened Ledger

  // ---------- Runs ----------

  datatype Op =
    | Transfer(from: AccountId, to: AccountId, id: TxId, amount: int)
    | Reverse(id: TxId)

  predicate Enabled(db: Database, system: AccountId, op: Op) {
    match op
    case Transfer(from, to, _, _) => Transferable(db, system, from, to)
    case Reverse(id) => Reversible(db, id)
  }

  /** A refused operation rolls back and leaves the committed state as it was. */
  function Apply(db: Database, system: AccountId, op: Op): (after: Database)
    ensures after.accounts.Keys == db.accounts.Keys
  {
    if !Enabled(db, system, op) then db
    else match op
      case Transfer(from, to, id, amount) => Transferred(db, system, from, to, id, amount)
      case Reverse(id) => Reversed(db, id)
  }

  function Run(db: Database, system: AccountId, ops: seq<Op>): (after: Database)
    ensures after.accounts.Keys == db.accounts.Keys
  {
    if ops == [] then db else Apply(Run(db, system, ops[..|ops| - 1]), system, ops[|ops| - 1])
  }

  lemma RunSnoc(db: Database, system: AccountId, ops: seq<Op>, op: Op)
    ensures Run(db, system, ops + [op]) == Apply(Run(db, system, ops), system, op)
  {
    assert (ops + [op])[..|ops|] == ops;
  }

  lemma Regroup(first: seq<Op>, second: seq<Op>)
    requires second != []
    ensures var front, last := second[..|second| - 1], second[|second| - 1];
            second == front + [last] && first + second == (first + front) + [last]
  {
  }

  lemma RunSame(db: Database, db': Database, system: AccountId, ops: seq<Op>, ops': seq<Op>,
                front: seq<Op>, front': seq<Op>, last: Op)
    requires ops == front + [last] && ops' == front' + [last] && Run(db, system, front) == Run(db', system, front')
    ensures Run(db, system, ops) == Run(db', system, ops')
  {
    assert ops[..|ops| - 1] == front && ops'[..|ops'| - 1] == front';
  }

  lemma {:induction false} RunConcat(db: Database, system: AccountId, first: seq<Op>, second: seq<Op>)
    ensures Run(db, system, first + second) == Run(Run(db, system, first), system, second)
  {
    if second == [] {
      assert first + second == first;
    } else {
      var front, last := second[..|second| - 1], second[|second| - 1];
      Regroup(first, second);
      RunConcat(db, system, first, front);
      RunSame(db, Run(db, system, first), system, first + second, second, first + front, front, last);
    }
  }

  // ---------- Sums over the log ----------

  datatype Selector =
    | OfAccount(account: AccountId)
    | OfTx(id: TxId)
    | OfAccountIn(owner: AccountId, ids: set<TxId>)
  {
    predicate Selects(e: Entry) {
      match this
      case OfAccount(a) => e.account == a
      case OfTx(id) => e.txId == id
      case OfAccountIn(a, ids) => e.account == a && e.txId in ids
    }
  }

  function Sum(which: Selector, entries: seq<Entry>): int {
    if entries == [] then 0
    else
      var last := entries[|entries| - 1];
      Sum(which, entries[..|entries| - 1]) + if which.Selects(last) then last.amount else 0
  }

  function Count(which: Selector, entries: seq<Entry>): nat {
    if entries == [] then 0
    else
      var last := entries[|entries| - 1];
      Count(which, entries[..|entries| - 1]) + if which.Selects(last) then 1 else 0
  }

  lemma AppendOne(which: Selector, entries: seq<Entry>, e: Entry)
    ensures Sum(which, entries + [e]) == Sum(which, entries) + if which.Selects(e) then e.amount else 0
    ensures Count(which, entries + [e]) == Count(which, entries) + if which.Selects(e) then 1 else 0
  {
    assert (entries + [e])[..|entries|] == entries;
  }

  // ---------- Cached balances agree with the log ----------

  /**
   Every cached column is what the log says it is: the balance and version of
   each account, and the running balance stamped on each row.
   */
  ghost predicate Agrees(opening: map<AccountId, Account>, db: Database) {
    && db.accounts.Keys == opening.Keys
    && AccountsKnown(opening, db.entries)
    && (forall a :: a in opening ==>
          && db.accounts[a].balance == opening[a].balance + Sum(OfAccount(a), db.entries)
          && db.accounts[a].version == opening[a].version + Count(OfAccount(a), db.entries))
    && (forall i :: 0 <= i < |db.entries| ==> StampedAt(opening, db.entries, i))
  }

  ghost predicate StampedAt(opening: map<AccountId, Account>, entries: seq<Entry>, i: nat)
    requires i < |entries| && AccountsKnown(opening, entries)
  {
    var a := entries[i].account;
    entries[i].balance == opening[a].balance + Sum(OfAccount(a), entries[..i + 1])
  }

  lemma PostKeepsAgreement(opening: map<AccountId, Account>, db: Database, id: TxId, a: AccountId, amount: int,
                           t: EntryType)
    requires Agrees(opening, db) && a in db.accounts
    ensures Agrees(opening, Post(db, id, a, amount, t))
  {
    var after := Post(db, id, a, amount, t);
    var e := after.entries[|db.entries|];
    forall b | b in opening
      ensures after.accounts[b].balance == opening[b].balance + Sum(OfAccount(b), after.entries)
      ensures after.accounts[b].version == opening[b].version + Count(OfAccount(b), after.entries)
    {
      AppendOne(OfAccount(b), db.entries, e);
    }
    forall i | 0 <= i < |after.entries| ensures StampedAt(opening, after.entries, i) {
      if i < |db.entries| {
        assert after.entries[..i + 1] == db.entries[..i + 1];
        assert StampedAt(opening, db.entries, i);
      } else {
        assert after.entries[..i + 1] == after.entries;
      }
    }
  }

  lemma StepKeepsAgreement(opening: map<AccountId, Account>, db: Database, after: Database,
                           id: TxId, a: AccountId, amount: int, t: EntryType)
    requires a in db.accounts && after == Post(db, id, a, amount, t)
    ensures Agrees(opening, db) ==> Agrees(opening, after)
  {
    if Agrees(opening, db) {
      PostKeepsAgreement(opening, db, id, a, amount, t);
    }
  }

  lemma {:induction false} NegatedKeepsAgreement(opening: map<AccountId, Account>, db: Database, id: TxId,
                                                 entries: seq<Entry>)
    requires Agrees(opening, db) && AccountsKnown(db.accounts, entries)
    ensures Agrees(opening, Negated(db, id, entries))
  {
    if entries != [] {
      var n := |entries| - 1;
      var last := entries[n];
      NegatedLast(db, id, entries, last);
      StepKeepsAgreement(opening, Negated(db, id, entries[..n]), Negated(db, id, entries),
                         id, last.account, -last.amount, Opposite(last.entryType));
      NegatedKeepsAgreement(opening, db, id, entries[..n]);
    }
  }

  lemma StatesDoNotMatter(opening: map<AccountId, Account>, db: Database, states: seq<StateRow>)
    requires Agrees(opening, db)
    ensures Agrees(opening, db.(states := states))
  {
    forall i | 0 <= i < |db.entries| ensures StampedAt(opening, db.(states := states).entries, i) {
      assert StampedAt(opening, db.entries, i);
    }
  }

  lemma TransferKeepsAgreement(opening: map<AccountId, Account>, db: Database, system: AccountId,
                               from: AccountId, to: AccountId, id: TxId, amount: int)
    requires Agrees(opening, db) && Transferable(db, system, from, to)
    ensures Agrees(opening, Transferred(db, system, from, to, id, amount))
  {
    var credit := Resolve(db.accounts, system, to);
    var debited := Post(db, id, from, -amount, DEBIT);
    assert Agrees(opening, debited) by {
      PostKeepsAgreement(opening, db, id, from, -amount, DEBIT);
    }
    var moved := Post(debited, id, credit, amount, CREDIT);
    assert Agrees(opening, moved) by {
      PostKeepsAgreement(opening, debited, id, credit, amount, CREDIT);
    }
    StatesDoNotMatter(opening, moved, db.states + [StateRow(id, PENDING), StateRow(id, SUCCESS)]);
  }

  lemma ReverseKeepsAgreement(opening: map<AccountId, Account>, db: Database, id: TxId)
    requires Agrees(opening, db) && Reversible(db, id)
    ensures Agrees(opening, Reversed(db, id))
  {
    var found := EntriesOf(db.entries, id);
    NegatedKeepsAgreement(opening, db, ReversalId(id), found);
    StatesDoNotMatter(opening, Negated(db, ReversalId(id), found), Reversed(db, id).states);
  }

  lemma ApplyKeepsAgreement(opening: map<AccountId, Account>, db: Database, system: AccountId, op: Op)
    requires Agrees(opening, db)
    ensures Agrees(opening, Apply(db, system, op))
  {
    if Enabled(db, system, op) {
      match op
      case Transfer(from, to, id, amount) => TransferKeepsAgreement(opening, db, system, from, to, id, amount);
      case Reverse(id) => ReverseKeepsAgreement(opening, db, id);
    }
  }

  lemma {:induction false} RunKeepsAgreement(opening: map<AccountId, Account>, db: Database, system: AccountId,
                                             ops: seq<Op>)
    requires Agrees(opening, db)
    ensures Agrees(opening, Run(db, system, ops))
  {
    if ops != [] {
      RunKeepsAgreement(opening, db, system, ops[..|ops| - 1]);
      ApplyKeepsAgreement(opening, Run(db, system, ops[..|ops| - 1]), system, ops[|ops| - 1]);
    }
  }

  // ---------- Double entry ----------

  /** The rows of every transaction id cancel out. */
  ghost predicate Balanced(db: Database) {
    forall id :: Sum(OfTx(id), db.entries) == 0
  }

  lemma {:induction false} NegatedSums(db: Database, rid: TxId, entries: seq<Entry>, which: Selector)
    requires AccountsKnown(db.accounts, entries)
    requires !which.OfAccountIn? && !which.OfAccount?
    ensures Sum(which, Negated(db, rid, entries).entries)
            == Sum(which, db.entries) - if which.id == rid then SumAll(entries) else 0
  {
    if entries != [] {
      var n := |entries| - 1;
      assert entries[n] in entries;
      NegatedSums(db, rid, entries[..n], which);
      var before := Negated(db, rid, entries[..n]);
      AppendOne(which, before.entries, Negated(db, rid, entries).entries[|before.entries|]);
    }
  }

  function SumAll(entries: seq<Entry>): int {
    if entries == [] then 0 else SumAll(entries[..|entries| - 1]) + entries[|entries| - 1].amount
  }

  lemma {:induction false} SumOfSelected(entries: seq<Entry>, id: TxId)
    ensures SumAll(EntriesOf(entries, id)) == Sum(OfTx(id), entries)
  {
    if entries != [] {
      var n := |entries| - 1;
      SumOfSelected(entries[..n], id);
      var before := EntriesOf(entries[..n], id);
      assert (before + [entries[n]])[..|before|] == before;
    }
  }

  lemma ApplyKeepsBalanced(db: Database, system: AccountId, op: Op)
    requires Balanced(db)
    ensures Balanced(Apply(db, system, op))
  {
    var after := Apply(db, system, op);
    forall id ensures Sum(OfTx(id), after.entries) == 0 {
      if Enabled(db, system, op) {
        match op
        case Transfer(from, to, tid, amount) =>
          var debited := Post(db, tid, from, -amount, DEBIT);
          AppendOne(OfTx(id), db.entries, debited.entries[|db.entries|]);
          AppendOne(OfTx(id), debited.entries, after.entries[|debited.entries|]);
        case Reverse(tid) =>
          var found := EntriesOf(db.entries, tid);
          NegatedSums(db, ReversalId(tid), found, OfTx(id));
          SumOfSelected(db.entries, tid);
      }
    }
  }

  ghost function Total(accounts: map<AccountId, Account>): int {
    if accounts == map[] then 0
    else
      var a :| a in accounts;
      accounts[a].balance + Total(accounts - {a})
  }

  lemma {:induction false} TotalSplit(accounts: map<AccountId, Account>, a: AccountId)
    requires a in accounts
    ensures Total(accounts) == accounts[a].balance + Total(accounts - {a})
    decreases |accounts|
  {
    var b :| b in accounts && Total(accounts) == accounts[b].balance + Total(accounts - {b});
    if b != a {
      TotalSplit(accounts - {b}, a);
      TotalSplit(accounts - {a}, b);
      assert accounts - {a} - {b} == accounts - {b} - {a};
    }
  }

  lemma PostMovesTotal(db: Database, id: TxId, a: AccountId, amount: int, t: EntryType)
    requires a in db.accounts
    ensures Total(Post(db, id, a, amount, t).accounts) == Total(db.accounts) + amount
  {
    var after := Post(db, id, a, amount, t).accounts;
    TotalSplit(db.accounts, a);
    TotalSplit(after, a);
    assert after - {a} == db.accounts - {a};
  }

  lemma {:induction false} NegatedMovesTotal(db: Database, id: TxId, entries: seq<Entry>)
    requires AccountsKnown(db.accounts, entries)
    ensures Total(Negated(db, id, entries).accounts) == Total(db.accounts) - SumAll(entries)
  {
    if entries != [] {
      var n := |entries| - 1;
      var last := entries[n];
      assert last in entries;
      NegatedMovesTotal(db, id, entries[..n]);
      PostMovesTotal(Negated(db, id, entries[..n]), id, last.account, -last.amount, Opposite(last.entryType));
    }
  }

  /** Money is neither created nor destroyed by one operation, wherever the credit lands. */
  lemma ApplyKeepsTotal(db: Database, system: AccountId, op: Op)
    requires Balanced(db)
    ensures Total(Apply(db, system, op).accounts) == Total(db.accounts)
  {
    if Enabled(db, system, op) {
      match op
      case Transfer(from, to, id, amount) =>
        PostMovesTotal(db, id, from, -amount, DEBIT);
        PostMovesTotal(Post(db, id, from, -amount, DEBIT), id, Resolve(db.accounts, system, to), amount, CREDIT);
      case Reverse(id) =>
        NegatedMovesTotal(db, ReversalId(id), EntriesOf(db.entries, id));
        SumOfSelected(db.entries, id);
    }
  }

  /** Double entry over whole runs. */
  lemma {:induction false} RunConserves(db: Database, system: AccountId, ops: seq<Op>)
    requires Balanced(db)
    ensures Balanced(Run(db, system, ops))
    ensures Total(Run(db, system, ops).accounts) == Total(db.accounts)
  {
    if ops != [] {
      var before := Run(db, system, ops[..|ops| - 1]);
      RunConserves(db, system, ops[..|ops| - 1]);
      ApplyKeepsBalanced(before, system, ops[|ops| - 1]);
      ApplyKeepsTotal(before, system, ops[|ops| - 1]);
    }
  }

  // ---------- Entry types ----------

  /** Money out is a DEBIT and money in is a CREDIT, in transfers and in reversals. */
  predicate Typed(entries: seq<Entry>) {
    forall e :: e in entries ==> e.amount != 0 && (e.entryType == DEBIT <==> e.amount < 0)
  }

  predicate Positive(op: Op) {
    op.Transfer? ==> op.amount > 0
  }

  lemma MirrorsTyped(rows: seq<Entry>, found: seq<Entry>, id: TxId)
    requires Mirrors(rows, found, id) && Typed(found)
    ensures Typed(rows)
  {
    forall i | 0 <= i < |rows| ensures rows[i].amount != 0 && (rows[i].entryType == DEBIT <==> rows[i].amount < 0) {
      assert found[i] in found;
    }
  }

  lemma ApplyKeepsTyped(db: Database, system: AccountId, op: Op)
    requires Typed(db.entries) && Positive(op)
    ensures Typed(Apply(db, system, op).entries)
  {
    var after, n := Apply(db, system, op), |db.entries|;
    if Enabled(db, system, op) {
      match op
      case Transfer(from, to, id, amount) =>
        TransferredIs(db, system, from, to, id, amount);
      case Reverse(id) =>
        NegatedMirrors(db, ReversalId(id), EntriesOf(db.entries, id));
        MirrorsTyped(after.entries[n..], EntriesOf(db.entries, id), ReversalId(id));
      assert after.entries == after.entries[..n] + after.entries[n..];
    }
  }

  /** If every transfer moves a positive amount, every row of every run has the type of its sign. */
  lemma {:induction false} RunKeepsTyped(db: Database, system: AccountId, ops: seq<Op>)
    requires Typed(db.entries) && forall op :: op in ops ==> Positive(op)
    ensures Typed(Run(db, system, ops).entries)
  {
    if ops != [] {
      RunKeepsTyped(db, system, ops[..|ops| - 1]);
      ApplyKeepsTyped(Run(db, system, ops[..|ops| - 1]), system, ops[|ops| - 1]);
    }
  }

  /** One accepted transfer moves its amount to the destination, if that is known, and else to the system account. */
  lemma AppliedTransfer(db: Database, system: AccountId, op: Op)
    requires op.Transfer? && Enabled(db, system, op)
    ensures MovesWhereDue(db.accounts, Apply(db, system, op).accounts, system, op.from, op.to, op.amount)
    ensures var credit := if op.to in db.accounts then op.to else system;
            Transfers(db, Apply(db, system, op), op.from, credit, op.id, op.amount)
  {
    TransferredIs(db, system, op.from, op.to, op.id, op.amount);
  }

  /** One accepted reversal adds the mirror image of the entries under its id, row by row. */
  lemma AppliedReversal(db: Database, system: AccountId, id: TxId)
    requires Enabled(db, system, Reverse(id))
    ensures var after := Apply(db, system, Reverse(id));
            && GrowsBy(db.entries, after.entries, EntriesOf(db.entries, id), id + "_REVERSAL")
            && after.states == db.states + [StateRow(id, REVERSED)]
  {
    NegatedMirrors(db, ReversalId(id), EntriesOf(db.entries, id));
  }

  // ---------- The payment-state log ----------

  /** Some row before `bound` says that the entries under `id` were committed. */
  ghost predicate Justified(states: seq<StateRow>, id: TxId, bound: nat)
    requires bound <= |states|
  {
    || StateRow(id, SUCCESS) in states[..bound]
    || exists x :: id == ReversalId(x) && StateRow(x, REVERSED) in states[..bound]
  }

  ghost predicate RowInOrder(states: seq<StateRow>, i: nat)
    requires i < |states|
  {
    match states[i].state
    case PENDING => i + 1 < |states| && states[i + 1] == StateRow(states[i].txId, SUCCESS)
    case SUCCESS => i > 0 && states[i - 1] == StateRow(states[i].txId, PENDING)
    case FAILED => false
    case REVERSED => Justified(states, states[i].txId, i)
  }

  /** No FAILED row, PENDING and SUCCESS in adjacent pairs, REVERSED only after a commit of that id. */
  ghost predicate StatesInOrder(db: Database) {
    && (forall i :: 0 <= i < |db.states| ==> RowInOrder(db.states, i))
    && (forall e :: e in db.entries ==> Justified(db.states, e.txId, |db.states|))
  }

  lemma JustifiedLater(states: seq<StateRow>, more: seq<StateRow>, id: TxId, bound: nat, later: nat)
    requires bound <= |states| && bound <= later <= |states + more|
    requires Justified(states, id, bound)
    ensures Justified(states + more, id, later)
  {
    assert (states + more)[..later][..bound] == states[..bound];
    assert forall r :: r in states[..bound] ==> r in (states + more)[..later];
  }

  lemma {:induction false} NegatedRows(db: Database, id: TxId, entries: seq<Entry>)
    requires AccountsKnown(db.accounts, entries)
    ensures forall e :: e in Negated(db, id, entries).entries ==> e in db.entries || e.txId == id
  {
    if entries != [] {
      assert entries[|entries| - 1] in entries;
      NegatedRows(db, id, entries[..|entries| - 1]);
    }
  }

  lemma OldRowStays(states: seq<StateRow>, added: seq<StateRow>, i: nat)
    requires i < |states| && RowInOrder(states, i)
    ensures RowInOrder(states + added, i)
  {
    if states[i].state == REVERSED {
      JustifiedLater(states, added, states[i].txId, i, i);
    }
  }

  /** Rows added in order, and new entries justified by them. */
  lemma StatesGrow(db: Database, after: Database, added: seq<StateRow>)
    requires StatesInOrder(db) && after.states == db.states + added
    requires forall i :: |db.states| <= i < |after.states| ==> RowInOrder(after.states, i)
    requires forall e :: e in after.entries && e !in db.entries ==> Justified(after.states, e.txId, |after.states|)
    ensures StatesInOrder(after)
  {
    forall i | 0 <= i < |after.states| ensures RowInOrder(after.states, i) {
      if i < |db.states| {
        OldRowStays(db.states, added, i);
      }
    }
    forall e | e in after.entries ensures Justified(after.states, e.txId, |after.states|) {
      if e in db.entries {
        JustifiedLater(db.states, added, e.txId, |db.states|, |after.states|);
      }
    }
  }

  lemma TransferKeepsStates(db: Database, system: AccountId, op: Op)
    requires StatesInOrder(db) && op.Transfer? && Enabled(db, system, op)
    ensures StatesInOrder(Apply(db, system, op))
  {
    var after := Apply(db, system, op);
    assert after.states[..|after.states|] == after.states && after.states[|db.states| + 1] == StateRow(op.id, SUCCESS);
    StatesGrow(db, after, [StateRow(op.id, PENDING), StateRow(op.id, SUCCESS)]);
  }

  lemma ReverseKeepsStates(db: Database, id: TxId)
    requires StatesInOrder(db) && Reversible(db, id)
    ensures StatesInOrder(Reversed(db, id))
  {
    var after, found := Reversed(db, id), EntriesOf(db.entries, id);
    assert found[0] in found;
    JustifiedLater(db.states, [StateRow(id, REVERSED)], id, |db.states|, |db.states|);
    NegatedRows(db, ReversalId(id), found);
    assert after.states[..|after.states|] == after.states && after.states[|db.states|] == StateRow(id, REVERSED);
    StatesGrow(db, after, [StateRow(id, REVERSED)]);
  }

  lemma ApplyKeepsStates(db: Database, system: AccountId, op: Op)
    requires StatesInOrder(db)
    ensures StatesInOrder(Apply(db, system, op))
  {
    if Enabled(db, system, op) {
      match op
      case Transfer(_, _, _, _) => TransferKeepsStates(db, system, op);
      case Reverse(id) => ReverseKeepsStates(db, id);
    }
  }

  lemma {:induction false} RunKeepsStates(db: Database, system: AccountId, ops: seq<Op>)
    requires StatesInOrder(db)
    ensures StatesInOrder(Run(db, system, ops))
  {
    if ops != [] {
      RunKeepsStates(db, system, ops[..|ops| - 1]);
      ApplyKeepsStates(Run(db, system, ops[..|ops| - 1]), system, ops[|ops| - 1]);
    }
  }

  // ---------- Every committed state ----------

  /** Any run over any opening balances, starting from empty logs. */
  lemma EveryRun(opening: map<AccountId, Account>, system: AccountId, ops: seq<Op>)
    ensures var db := Run(Database(opening, [], []), system, ops);
            && Agrees(opening, db)
            && Balanced(db)
            && Total(db.accounts) == Total(opening)
            && StatesInOrder(db)
  {
    var start := Database(opening, [], []);
    RunKeepsAgreement(opening, start, system, ops);
    RunConserves(start, system, ops);
    RunKeepsStates(start, system, ops);
  }
}
