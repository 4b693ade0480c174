/**
 The statements that a transfer or a reversal issues inside its transaction,
 and what a session that issues them has done so far.
 */
module LedgerStatements {
  import opened Common
  import opened AccountOrder
  import opened Ledger
  import opened LedgerRuns

  datatype Leg = Leg(account: AccountId, amount: int, entryType: EntryType)

  /** The statements of an operation after its first one. */
  datatype Statement = Lock(account: AccountId) | Insert(leg: Leg) | Update(leg: Leg)

  datatype Cause = Fault | MissingRow | VersionCheck | NoEntries

  /** What a session holds, has read under lock, and has written but not committed. */
  datatype Local = Local(held: set<AccountId>, read: map<AccountId, Account>, writes: map<AccountId, Account>,
                         rows: seq<Entry>)

  const NOTHING_YET := Local({}, map[], map[], [])

  /** The id under which an operation writes its rows. */
  function WrittenId(op: Op): TxId {
    match op
    case Transfer(_, _, id, _) => id
    case Reverse(id) => ReversalId(id)
  }

  // ---------- The statements of an operation ----------

  /** Both locks in increasing order, then both rows, then both updates. */
  function TransferPlan(from: AccountId, credit: AccountId, amount: int): seq<Statement> {
    var debit, deposit := Leg(from, -amount, DEBIT), Leg(credit, amount, CREDIT);
    var first, second := if Less(credit, from) then credit else from, if Less(credit, from) then from else credit;
    [Lock(first), Lock(second), Insert(debit), Insert(deposit), Update(debit), Update(deposit)]
  }

  /** Lock, row and update for each entry in turn. */
  function ReversePlan(entries: seq<Entry>): seq<Statement> {
    if entries == [] then []
    else
      var e := entries[|entries| - 1];
      var leg := Leg(e.account, -e.amount, Opposite(e.entryType));
      ReversePlan(entries[..|entries| - 1]) + [Lock(e.account), Insert(leg), Update(leg)]
  }

  /** An account as its own session sees it. */
  function Visible(accounts: map<AccountId, Account>, l: Local, a: AccountId): Account
    requires a in accounts
  {
    if a in l.writes then l.writes[a] else accounts[a]
  }

  /** One statement, on the committed accounts and what the session has done itself. */
  function Do(accounts: map<AccountId, Account>, id: TxId, l: Local, statement: Statement): Result<Local, Cause> {
    match statement
    case Lock(a) =>
      if a in accounts
      then Ok(l.(held := l.held + {a}, read := l.read[a := Visible(accounts, l, a)]))
      else Err(MissingRow)
    case Insert(leg) =>
      if leg.account in l.read
      then Ok(l.(rows := l.rows + [Entry(id, leg.account, leg.amount, leg.entryType,
                                         l.read[leg.account].balance + leg.amount)]))
      else Err(MissingRow)
    case Update(leg) =>
      if leg.account in accounts && leg.account in l.read
         && Visible(accounts, l, leg.account).version == l.read[leg.account].version
      then
        var row := l.read[leg.account];
        Ok(l.(writes := l.writes[leg.account := Account(row.balance + leg.amount, row.version + 1)]))
      else Err(VersionCheck)
  }

  // ---------- An operation alone ----------

  /** What a session has after the statements `plan`, when the accounts it locks stay as they are. */
  function Exec(accounts: map<AccountId, Account>, id: TxId, plan: seq<Statement>): Result<Local, Cause> {
    if plan == [] then Ok(NOTHING_YET)
    else
      var before := Exec(accounts, id, plan[..|plan| - 1]);
      if before.Ok? then Do(accounts, id, before.value, plan[|plan| - 1]) else before
  }

  lemma ExecSnoc(accounts: map<AccountId, Account>, id: TxId, plan: seq<Statement>, statement: Statement)
    ensures Exec(accounts, id, plan + [statement])
            == if Exec(accounts, id, plan).Ok? then Do(accounts, id, Exec(accounts, id, plan).value, statement)
               else Exec(accounts, id, plan)
  {
    assert (plan + [statement])[..|plan|] == plan;
  }

  /** A session reads, writes and inserts only where it holds the lock, and under its own id. */
  predicate Confined(accounts: map<AccountId, Account>, id: TxId, l: Local) {
    && l.held <= accounts.Keys && l.read.Keys <= l.held && l.writes.Keys <= l.held
    && (forall e :: e in l.rows ==> e.account in l.held && e.txId == id)
  }

  lemma DoConfined(accounts: map<AccountId, Account>, id: TxId, l: Local, statement: Statement)
    requires Confined(accounts, id, l)
    ensures var r := Do(accounts, id, l, statement);
            r.Ok? ==> Confined(accounts, id, r.value) && l.held <= r.value.held
  {
  }

  lemma {:induction false} ExecConfined(accounts: map<AccountId, Account>, id: TxId, plan: seq<Statement>)
    ensures var r := Exec(accounts, id, plan);
            r.Ok? ==> Confined(accounts, id, r.value)
  {
    if plan != [] {
      var n := |plan| - 1;
      ExecConfined(accounts, id, plan[..n]);
      if Exec(accounts, id, plan[..n]).Ok? {
        DoConfined(accounts, id, Exec(accounts, id, plan[..n]).value, plan[n]);
      }
    }
  }

  lemma DoElsewhere(accounts: map<AccountId, Account>, accounts': map<AccountId, Account>, id: TxId, l: Local,
                    statement: Statement)
    requires accounts'.Keys == accounts.Keys && Do(accounts, id, l, statement).Ok?
    requires Confined(accounts, id, l)
    requires forall a :: a in Do(accounts, id, l, statement).value.held && a in accounts ==> accounts'[a] == accounts[a]
    ensures Do(accounts', id, l, statement) == Do(accounts, id, l, statement)
  {
  }

  /** Changes to accounts that are not held make no difference. */
  lemma {:induction false} ExecElsewhere(accounts: map<AccountId, Account>, accounts': map<AccountId, Account>,
                                         id: TxId, plan: seq<Statement>)
    requires accounts'.Keys == accounts.Keys && Exec(accounts, id, plan).Ok?
    requires forall a :: a in Exec(accounts, id, plan).value.held && a in accounts ==> accounts'[a] == accounts[a]
    ensures Exec(accounts', id, plan) == Exec(accounts, id, plan)
  {
    if plan != [] {
      var n := |plan| - 1;
      var l := Exec(accounts, id, plan[..n]).value;
      ExecConfined(accounts, id, plan[..n]);
      DoConfined(accounts, id, l, plan[n]);
      ExecElsewhere(accounts, accounts', id, plan[..n]);
      DoElsewhere(accounts, accounts', id, l, plan[n]);
    }
  }

  // ---------- What a whole plan does ----------

  lemma Prefixes(plan: seq<Statement>, n: nat)
    requires n < |plan|
    ensures plan[..n + 1] == plan[..n] + [plan[n]]
  {
  }

  lemma ExecNext(accounts: map<AccountId, Account>, id: TxId, plan: seq<Statement>, n: nat)
    requires n < |plan| && Exec(accounts, id, plan[..n]).Ok?
    ensures Exec(accounts, id, plan[..n + 1]) == Do(accounts, id, Exec(accounts, id, plan[..n]).value, plan[n])
  {
    Prefixes(plan, n);
    ExecSnoc(accounts, id, plan[..n], plan[n]);
  }

  lemma {:induction false} ExecPrefix(accounts: map<AccountId, Account>, id: TxId, plan: seq<Statement>, n: nat)
    requires n <= |plan| && Exec(accounts, id, plan).Ok?
    ensures Exec(accounts, id, plan[..n]).Ok?
    decreases |plan|
  {
    if n < |plan| {
      ExecPrefix(accounts, id, plan[..|plan| - 1], n);
      assert plan[..|plan| - 1][..n] == plan[..n];
    } else {
      assert plan[..n] == plan;
    }
  }

  function TransferRow(accounts: map<AccountId, Account>, a: AccountId, amount: int): Account
    requires a in accounts
  {
    Account(accounts[a].balance + amount, accounts[a].version + 1)
  }

  /** After both locks the two rows have been read as they are. */
  lemma LocksRead(accounts: map<AccountId, Account>, id: TxId, from: AccountId, credit: AccountId, amount: int)
    requires from in accounts && credit in accounts
    ensures Exec(accounts, id, TransferPlan(from, credit, amount)[..2])
            == Ok(Local({from, credit}, map[from := accounts[from], credit := accounts[credit]], map[], []))
  {
    var plan := TransferPlan(from, credit, amount);
    assert plan[..0] == [];
    ExecNext(accounts, id, plan, 0);
    ExecNext(accounts, id, plan, 1);
    var first, second := plan[0].account, plan[1].account;
    var l := Exec(accounts, id, plan[..2]).value;
    assert l.held == ({} + {first}) + {second} == {from, credit};
    assert l.read == map[first := accounts[first]][second := accounts[second]]
           == map[from := accounts[from], credit := accounts[credit]];
    assert l.writes == map[] && l.rows == [] && Exec(accounts, id, plan[..2]).Ok?;
    assert l == Local({from, credit}, map[from := accounts[from], credit := accounts[credit]], map[], []);
    assert Exec(accounts, id, plan[..2]) == Ok(l);
  }

  lemma RowsInserted(accounts: map<AccountId, Account>, id: TxId, from: AccountId, credit: AccountId, amount: int)
    requires from in accounts && credit in accounts
    ensures Exec(accounts, id, TransferPlan(from, credit, amount)[..4])
            == Ok(Local({from, credit}, map[from := accounts[from], credit := accounts[credit]], map[],
                        [Entry(id, from, -amount, DEBIT, accounts[from].balance - amount),
                         Entry(id, credit, amount, CREDIT, accounts[credit].balance + amount)]))
  {
    var plan := TransferPlan(from, credit, amount);
    LocksRead(accounts, id, from, credit, amount);
    ExecNext(accounts, id, plan, 2);
    ExecNext(accounts, id, plan, 3);
    var debit := Entry(id, from, -amount, DEBIT, accounts[from].balance - amount);
    var deposit := Entry(id, credit, amount, CREDIT, accounts[credit].balance + amount);
    assert [] + [debit] + [deposit] == [debit, deposit];
  }

  lemma UpdatesDone(accounts: map<AccountId, Account>, id: TxId, from: AccountId, credit: AccountId, amount: int)
    requires from in accounts && credit in accounts
    ensures var plan := TransferPlan(from, credit, amount);
            && Exec(accounts, id, plan[..5]).Ok?
            && (from == credit ==> Exec(accounts, id, plan[..6]) == Err(VersionCheck))
            && (from != credit ==>
                  Exec(accounts, id, plan[..6])
                  == Ok(Local({from, credit}, map[from := accounts[from], credit := accounts[credit]],
                              map[from := TransferRow(accounts, from, -amount),
                                  credit := TransferRow(accounts, credit, amount)],
                              [Entry(id, from, -amount, DEBIT, accounts[from].balance - amount),
                               Entry(id, credit, amount, CREDIT, accounts[credit].balance + amount)])))
  {
    var plan := TransferPlan(from, credit, amount);
    RowsInserted(accounts, id, from, credit, amount);
    ExecNext(accounts, id, plan, 4);
    ExecNext(accounts, id, plan, 5);
  }

  /** The two sides of a transfer whose statements all succeed are known and different. */
  lemma TransferSides(accounts: map<AccountId, Account>, id: TxId, from: AccountId, credit: AccountId, amount: int)
    requires Exec(accounts, id, TransferPlan(from, credit, amount)).Ok?
    ensures from in accounts && credit in accounts && from != credit
  {
    var plan := TransferPlan(from, credit, amount);
    assert plan[..6] == plan && plan[..0] == [];
    ExecPrefix(accounts, id, plan, 1);
    ExecPrefix(accounts, id, plan, 2);
    ExecNext(accounts, id, plan, 0);
    ExecNext(accounts, id, plan, 1);
    UpdatesDone(accounts, id, from, credit, amount);
  }

  /** Only the second update of a transfer between one account and itself fails the version check. */
  lemma VersionCheckOnSelf(accounts: map<AccountId, Account>, id: TxId, from: AccountId, credit: AccountId,
                           amount: int, n: nat)
    requires n < 6 && Exec(accounts, id, TransferPlan(from, credit, amount)[..n]).Ok?
    requires Do(accounts, id, Exec(accounts, id, TransferPlan(from, credit, amount)[..n]).value,
                TransferPlan(from, credit, amount)[n])
             == Err(VersionCheck)
    ensures from == credit
  {
    var plan := TransferPlan(from, credit, amount);
    if n >= 4 {
      ExecPrefix(accounts, id, plan[..n], 1);
      ExecPrefix(accounts, id, plan[..n], 2);
      assert plan[..n][..1] == plan[..1] && plan[..n][..2] == plan[..2] && plan[..0] == [];
      ExecNext(accounts, id, plan, 0);
      ExecNext(accounts, id, plan, 1);
      UpdatesDone(accounts, id, from, credit, amount);
      ExecNext(accounts, id, plan, n);
    }
  }

  lemma TwoUpdates(m: map<AccountId, Account>, a: AccountId, x: Account, b: AccountId, y: Account)
    requires a != b
    ensures m + map[a := x, b := y] == m[a := x][b := y]
  {
  }

  /** A transfer whose statements all succeed does what the serial transfer does. */
  lemma TransferIsPosted(db: Database, system: AccountId, op: Op)
    requires op.Transfer?
    requires Exec(db.accounts, op.id, TransferPlan(op.from, Resolve(db.accounts, system, op.to), op.amount)).Ok?
    ensures var l := Exec(db.accounts, op.id,
                          TransferPlan(op.from, Resolve(db.accounts, system, op.to), op.amount)).value;
            IsPosted(db, l, Apply(db, system, op))
  {
    var credit := Resolve(db.accounts, system, op.to);
    var plan := TransferPlan(op.from, credit, op.amount);
    TransferSides(db.accounts, op.id, op.from, credit, op.amount);
    UpdatesDone(db.accounts, op.id, op.from, credit, op.amount);
    assert plan[..6] == plan;
    TwoUpdates(db.accounts, op.from, TransferRow(db.accounts, op.from, -op.amount),
               credit, TransferRow(db.accounts, credit, op.amount));
    var l := Exec(db.accounts, op.id, plan).value;
    assert db.entries + [l.rows[0]] + [l.rows[1]] == db.entries + l.rows;
  }

  // ---------- Reversals ----------

  lemma OneReversed(accounts: map<AccountId, Account>, id: TxId, plan: seq<Statement>, leg: Leg)
    requires Exec(accounts, id, plan).Ok?
    ensures var l := Exec(accounts, id, plan).value;
            var r := Exec(accounts, id, plan + [Lock(leg.account), Insert(leg), Update(leg)]);
            if leg.account !in accounts then r == Err(MissingRow)
            else
              var row := Visible(accounts, l, leg.account);
              && r.Ok?
              && r.value.writes == l.writes[leg.account := Account(row.balance + leg.amount, row.version + 1)]
              && r.value.rows == l.rows + [Entry(id, leg.account, leg.amount, leg.entryType, row.balance + leg.amount)]
  {
    ExecSnoc(accounts, id, plan, Lock(leg.account));
    ExecSnoc(accounts, id, plan + [Lock(leg.account)], Insert(leg));
    ExecSnoc(accounts, id, plan + [Lock(leg.account)] + [Insert(leg)], Update(leg));
    assert plan + [Lock(leg.account), Insert(leg), Update(leg)]
           == plan + [Lock(leg.account)] + [Insert(leg)] + [Update(leg)];
  }

  /** `after` is `db` with what `l` has written and inserted. */
  predicate IsPosted(db: Database, l: Local, after: Database) {
    after.accounts == db.accounts + l.writes && after.entries == db.entries + l.rows
  }

  lemma KnownGrows(accounts: map<AccountId, Account>, entries: seq<Entry>)
    requires entries != []
    ensures var n := |entries| - 1;
            AccountsKnown(accounts, entries)
            <==> AccountsKnown(accounts, entries[..n]) && entries[n].account in accounts
  {
    var n := |entries| - 1;
    assert entries == entries[..n] + [entries[n]];
  }

  /** A reversal succeeds exactly when every account is known; it never fails the version check. */
  lemma {:induction false} ReversalSucceeds(accounts: map<AccountId, Account>, id: TxId, entries: seq<Entry>)
    ensures var r := Exec(accounts, id, ReversePlan(entries));
            (r.Ok? <==> AccountsKnown(accounts, entries)) && (r.Err? ==> r.error == MissingRow)
  {
    if entries != [] {
      var n := |entries| - 1;
      var e, plan := entries[n], ReversePlan(entries[..n]);
      var leg := Leg(e.account, -e.amount, Opposite(e.entryType));
      ReversalSucceeds(accounts, id, entries[..n]);
      KnownGrows(accounts, entries);
      if Exec(accounts, id, plan).Ok? {
        OneReversed(accounts, id, plan, leg);
      } else {
        FailedStays(accounts, id, plan, [Lock(e.account), Insert(leg), Update(leg)]);
      }
    }
  }

  /** A reversal whose statements all succeed does what the serial negation does. */
  lemma {:induction false} ReversalIsNegated(db: Database, id: TxId, entries: seq<Entry>)
    requires AccountsKnown(db.accounts, entries)
    ensures Exec(db.accounts, id, ReversePlan(entries)).Ok?
    ensures IsPosted(db, Exec(db.accounts, id, ReversePlan(entries)).value, Negated(db, id, entries))
  {
    ReversalSucceeds(db.accounts, id, entries);
    if entries == [] {
      assert db.accounts + map[] == db.accounts && db.entries + [] == db.entries;
    } else {
      var n := |entries| - 1;
      ReversalIsNegated(db, id, entries[..n]);
      NegatedLast(db, id, entries, entries[n]);
      OneNegated(db, id, entries, Negated(db, id, entries[..n]), Negated(db, id, entries));
    }
  }

  lemma OneNegated(db: Database, id: TxId, entries: seq<Entry>, now: Database, after: Database)
    requires entries != [] && entries[|entries| - 1].account in db.accounts
    requires Exec(db.accounts, id, ReversePlan(entries[..|entries| - 1])).Ok?
    requires IsPosted(db, Exec(db.accounts, id, ReversePlan(entries[..|entries| - 1])).value, now)
    requires var e := entries[|entries| - 1]; after == Post(now, id, e.account, -e.amount, Opposite(e.entryType))
    ensures Exec(db.accounts, id, ReversePlan(entries)).Ok?
    ensures IsPosted(db, Exec(db.accounts, id, ReversePlan(entries)).value, after)
  {
    var n := |entries| - 1;
    var e, plan := entries[n], ReversePlan(entries[..n]);
    OneReversed(db.accounts, id, plan, Leg(e.account, -e.amount, Opposite(e.entryType)));
    PostOver(db, now, after, Exec(db.accounts, id, plan).value,
             Exec(db.accounts, id, ReversePlan(entries)).value, id, e.account, -e.amount, Opposite(e.entryType));
  }

  lemma {:induction false} FailedStays(accounts: map<AccountId, Account>, id: TxId, plan: seq<Statement>,
                                       more: seq<Statement>)
    requires Exec(accounts, id, plan).Err?
    ensures Exec(accounts, id, plan + more) == Exec(accounts, id, plan)
    decreases |more|
  {
    if more == [] {
      assert plan + more == plan;
    } else {
      var n := |more| - 1;
      FailedStays(accounts, id, plan, more[..n]);
      ExecSnoc(accounts, id, plan + more[..n], more[n]);
      assert plan + more == plan + more[..n] + [more[n]];
    }
  }

  lemma PostOver(db: Database, now: Database, after: Database, l: Local, l': Local, id: TxId, a: AccountId,
                 amount: int, t: EntryType)
    requires a in db.accounts && IsPosted(db, l, now)
    requires after == Post(now, id, a, amount, t)
    requires var row := Visible(db.accounts, l, a);
             && l'.writes == l.writes[a := Account(row.balance + amount, row.version + 1)]
             && l'.rows == l.rows + [Entry(id, a, amount, t, row.balance + amount)]
    ensures IsPosted(db, l', after)
  {
  }

  /** No statement of a reversal fails the version check: each update follows a read of the same row. */
  lemma {:induction false} ReversalPasses(accounts: map<AccountId, Account>, id: TxId, entries: seq<Entry>, n: nat)
    requires n < |ReversePlan(entries)| && Exec(accounts, id, ReversePlan(entries)[..n]).Ok?
    ensures Do(accounts, id, Exec(accounts, id, ReversePlan(entries)[..n]).value, ReversePlan(entries)[n])
            != Err(VersionCheck)
  {
    var m := |entries| - 1;
    var plan, before := ReversePlan(entries), ReversePlan(entries[..m]);
    if n < |before| {
      assert plan[..n] == before[..n] && plan[n] == before[n];
      ReversalPasses(accounts, id, entries[..m], n);
    } else if n == |before| + 2 {
      ExecPrefix(accounts, id, plan[..n], |before|);
      assert plan[..n][..|before|] == before;
      var e := entries[m];
      OneReversed(accounts, id, before, Leg(e.account, -e.amount, Opposite(e.entryType)));
      assert plan[..n + 1] == plan;
      ExecNext(accounts, id, plan, n);
    }
  }
}
