/**
 What row locking keeps under every schedule and every fault, whatever the
 operations and their ids: each running session has done what its statements
 would do alone, each account's committed rows come in commit order, and the
 committed rows under every id cancel out.
 */
module LedgerLocking {
  import opened Common
  import opened AccountOrder
  import opened Ledger
  import opened LedgerRuns
  import opened LedgerStatements
  import opened LedgerConcurrency

  // ---------- The invariant ----------

  /** A running session has done what its statements do alone on the accounts as committed now. */
  ghost predicate SessionOk(accounts: map<AccountId, Account>, x: Session) {
    && (x.stage.Running? ==> x.next <= |x.plan| && Exec(accounts, WrittenId(x.op), x.plan[..x.next]) == Ok(x.local))
    && (x.stage.Beginning? ==> x.local == NOTHING_YET)
    && (forall e :: e in x.local.rows ==> e.txId == WrittenId(x.op))
  }

  /** Entries whose amounts cancel out. */
  predicate Cancels(entries: seq<Entry>) {
    entries != [] && SumAll(entries) == 0
  }

  /** Its statements are those the operation needs; a reversal negates entries that cancel out. */
  ghost predicate PlanOk(system: AccountId, accounts: map<AccountId, Account>, x: Session) {
    match x.op
    case Transfer(from, to, _, amount) =>
      && (x.stage.Running? ==> x.plan == TransferPlan(from, Resolve(accounts, system, to), amount))
      && (x.stage.Committed? ==> Enabled(Database(accounts, [], []), system, x.op))
      && (x.stage == RolledBack(VersionCheck) ==> from == Resolve(accounts, system, to))
    case Reverse(_) =>
      && (x.stage.Running? ==> exists found :: Cancels(found) && x.plan == ReversePlan(found))
      && x.stage != RolledBack(VersionCheck)
  }

  ghost predicate SessionsOk(s: System) {
    forall i :: 0 <= i < |s.sessions|
      ==> SessionOk(s.accounts, s.sessions[i]) && PlanOk(s.systemAccount, s.accounts, s.sessions[i])
  }

  /** The lock table is exactly the union of what the sessions hold. */
  ghost predicate LocksOk(s: System) {
    && (forall a :: a in s.holder ==> s.holder[a] < |s.sessions| && a in s.sessions[s.holder[a]].Held())
    && (forall i, a :: 0 <= i < |s.sessions| && a in s.sessions[i].Held() ==> a in s.holder && s.holder[a] == i)
  }

  function Tag(i: nat, entries: seq<Entry>): seq<Row> {
    seq(|entries|, k requires 0 <= k < |entries| => Row(i, entries[k]))
  }

  /** The uncommitted rows on account `a`: only its lock holder can have any. */
  function Pending(s: System, a: AccountId): seq<Row> {
    if a in s.holder && s.holder[a] < |s.sessions|
    then RowsOn(Tag(s.holder[a], s.sessions[s.holder[a]].Inserted()), a)
    else []
  }

  predicate AllCommitted(s: System, rows: seq<Row>) {
    forall r :: r in rows ==> r.owner < |s.sessions| && s.sessions[r.owner].stage.Committed?
  }

  /** The rows on `a` are committed rows in commit order, then the pending ones. */
  ghost predicate RowsOk(s: System, db: Database, a: AccountId) {
    exists done: seq<Row> ::
      && RowsOn(s.rows, a) == done + Pending(s, a)
      && AllCommitted(s, done)
      && Bare(done) == EntriesOn(db.entries, a)
  }

  function Bare(rows: seq<Row>): seq<Entry> {
    seq(|rows|, k requires 0 <= k < |rows| => rows[k].entry)
  }

  /** The rows that session `i` inserted. */
  function Owned(rows: seq<Row>, i: nat): seq<Entry> {
    if rows == [] then []
    else
      var before := Owned(rows[..|rows| - 1], i);
      if rows[|rows| - 1].owner == i then before + [rows[|rows| - 1].entry] else before
  }

  predicate OwnerOk(s: System, i: nat)
    requires i < |s.sessions|
  {
    Owned(s.rows, i) == if s.sessions[i].stage.RolledBack? then [] else s.sessions[i].local.rows
  }

  /** Every row has an owner and carries the id its owner writes under. */
  predicate NamedByOwner(s: System, rows: seq<Row>) {
    forall r :: r in rows ==> r.owner < |s.sessions| && r.entry.txId == WrittenId(s.sessions[r.owner].op)
  }

  ghost predicate LogOk(s: System, db: Database) {
    && (forall a :: RowsOk(s, db, a))
    && (forall i :: 0 <= i < |s.sessions| ==> OwnerOk(s, i))
    && NamedByOwner(s, s.rows)
  }

  /** The committed rows under every transaction id cancel out. */
  ghost predicate IdsCancel(s: System) {
    forall t :: Sum(OfTx(t), CommittedRows(s, s.rows)) == 0
  }

  /** `db` holds the committed accounts, and the committed rows in commit order. */
  ghost predicate Inv(s: System, db: Database) {
    && SessionsOk(s)
    && LocksOk(s)
    && s.accounts == db.accounts
    && LogOk(s, db)
    && IdsCancel(s)
    && (forall i :: i in s.commits ==> i < |s.sessions| && s.sessions[i].stage.Committed?)
  }

  // ---------- Selecting rows ----------

  lemma {:induction false} RowsOnConcat(xs: seq<Row>, ys: seq<Row>, a: AccountId)
    ensures RowsOn(xs + ys, a) == RowsOn(xs, a) + RowsOn(ys, a)
  {
    if ys == [] {
      assert xs + ys == xs;
    } else {
      var n := |ys| - 1;
      RowsOnConcat(xs, ys[..n], a);
      assert (xs + ys)[..|xs| + n] == xs + ys[..n];
    }
  }

  lemma {:induction false} WithoutConcat(xs: seq<Row>, ys: seq<Row>, i: nat)
    ensures Without(xs + ys, i) == Without(xs, i) + Without(ys, i)
  {
    if ys == [] {
      assert xs + ys == xs;
    } else {
      var n := |ys| - 1;
      WithoutConcat(xs, ys[..n], i);
      assert (xs + ys)[..|xs| + n] == xs + ys[..n];
    }
  }

  lemma {:induction false} WithoutOthers(xs: seq<Row>, i: nat)
    requires forall r :: r in xs ==> r.owner != i
    ensures Without(xs, i) == xs
  {
    if xs != [] {
      var n := |xs| - 1;
      assert xs[n] in xs;
      WithoutOthers(xs[..n], i);
    }
  }

  lemma {:induction false} WithoutOwn(xs: seq<Row>, i: nat)
    requires forall r :: r in xs ==> r.owner == i
    ensures Without(xs, i) == []
  {
    if xs != [] {
      assert xs[|xs| - 1] in xs;
      WithoutOwn(xs[..|xs| - 1], i);
    }
  }

  lemma {:induction false} SelectionsCommute(xs: seq<Row>, i: nat, a: AccountId)
    ensures RowsOn(Without(xs, i), a) == Without(RowsOn(xs, a), i)
  {
    if xs != [] {
      var n := |xs| - 1;
      SelectionsCommute(xs[..n], i, a);
      RowsOnConcat(Without(xs[..n], i), [xs[n]], a);
      WithoutConcat(RowsOn(xs[..n], a), [xs[n]], i);
      assert [xs[n]][..0] == [];
    }
  }

  lemma {:induction false} RowsOnMembers(xs: seq<Row>, a: AccountId)
    ensures forall r :: r in RowsOn(xs, a) ==> r in xs && r.entry.account == a
  {
    if xs != [] {
      RowsOnMembers(xs[..|xs| - 1], a);
    }
  }

  lemma TagGrows(i: nat, entries: seq<Entry>, e: Entry)
    ensures Tag(i, entries + [e]) == Tag(i, entries) + [Row(i, e)]
  {
  }

  lemma {:induction false} OwnedConcat(xs: seq<Row>, ys: seq<Row>, i: nat)
    ensures Owned(xs + ys, i) == Owned(xs, i) + Owned(ys, i)
  {
    if ys == [] {
      assert xs + ys == xs;
    } else {
      var n := |ys| - 1;
      OwnedConcat(xs, ys[..n], i);
      assert (xs + ys)[..|xs| + n] == xs + ys[..n];
    }
  }

  lemma {:induction false} OwnedWithout(xs: seq<Row>, i: nat, j: nat)
    ensures Owned(Without(xs, i), j) == if i == j then [] else Owned(xs, j)
    ensures forall r :: r in Without(xs, i) ==> r in xs
  {
    if xs != [] {
      var n := |xs| - 1;
      OwnedWithout(xs[..n], i, j);
      OwnedConcat(Without(xs[..n], i), [xs[n]], j);
      assert [xs[n]][..0] == [];
    }
  }

  lemma {:induction false} EntriesOfConcat(xs: seq<Entry>, ys: seq<Entry>, t: TxId)
    ensures EntriesOf(xs + ys, t) == EntriesOf(xs, t) + EntriesOf(ys, t)
  {
    if ys == [] {
      assert xs + ys == xs;
    } else {
      var n := |ys| - 1;
      EntriesOfConcat(xs, ys[..n], t);
      assert xs + ys == (xs + ys[..n]) + [ys[n]] && ys == ys[..n] + [ys[n]];
      OneEntry(xs + ys[..n], ys[n], t);
      OneEntry(ys[..n], ys[n], t);
    }
  }

  lemma OneEntry(xs: seq<Entry>, e: Entry, t: TxId)
    ensures EntriesOf(xs + [e], t) == EntriesOf(xs, t) + if e.txId == t then [e] else []
  {
    assert (xs + [e])[..|xs|] == xs;
  }

  lemma {:induction false} EntriesNamed(xs: seq<Entry>, id: TxId, t: TxId)
    requires forall e :: e in xs ==> e.txId == id
    ensures EntriesOf(xs, t) == if id == t then xs else []
  {
    if xs != [] {
      var n := |xs| - 1;
      assert xs[n] in xs && forall e :: e in xs[..n] ==> e in xs;
      EntriesNamed(xs[..n], id, t);
      assert xs == xs[..n] + [xs[n]];
    }
  }

  // ---------- Rows on an account ----------

  /** If neither the rows nor the pending rows on `a` change, RowsOk(a) is kept. */
  lemma SameRows(s: System, s': System, db: Database, a: AccountId)
    requires RowsOk(s, db, a)
    requires RowsOn(s'.rows, a) == RowsOn(s.rows, a) && Pending(s', a) == Pending(s, a)
    requires |s'.sessions| == |s.sessions|
    requires forall j :: 0 <= j < |s.sessions| && s.sessions[j].stage.Committed? ==> s'.sessions[j].stage.Committed?
    ensures RowsOk(s', db, a)
  {
    var done: seq<Row> :| RowsOn(s.rows, a) == done + Pending(s, a) && AllCommitted(s, done)
                           && Bare(done) == EntriesOn(db.entries, a);
    assert AllCommitted(s', done);
  }

  lemma PendingOwner(s: System, a: AccountId)
    ensures forall r :: r in Pending(s, a) ==> a in s.holder && r.owner == s.holder[a]
  {
    if a in s.holder && s.holder[a] < |s.sessions| {
      RowsOnMembers(Tag(s.holder[a], s.sessions[s.holder[a]].Inserted()), a);
    }
  }

  lemma RollbackPending(s: System, i: nat, why: Cause, a: AccountId)
    requires LocksOk(s) && i < |s.sessions|
    ensures Pending(Rollback(s, i, why), a) == if a in s.holder && s.holder[a] == i then [] else Pending(s, a)
  {
  }

  lemma RollbackRows(s: System, db: Database, i: nat, why: Cause, a: AccountId)
    requires LocksOk(s) && RowsOk(s, db, a) && i < |s.sessions| && !s.sessions[i].Finished()
    ensures RowsOk(Rollback(s, i, why), db, a)
  {
    var s', pending := Rollback(s, i, why), Pending(s, a);
    var done: seq<Row> :| RowsOn(s.rows, a) == done + pending && AllCommitted(s, done)
                           && Bare(done) == EntriesOn(db.entries, a);
    RollbackPending(s, i, why, a);
    PendingOwner(s, a);
    assert RowsOn(s'.rows, a) == done + Pending(s', a) by {
      SelectionsCommute(s.rows, i, a);
      WithoutConcat(done, pending, i);
      WithoutOthers(done, i);
      if a in s.holder && s.holder[a] == i {
        WithoutOwn(pending, i);
      } else {
        WithoutOthers(pending, i);
      }
    }
    assert AllCommitted(s', done);
  }

  /** Session `i` inserts row `e` on an account it holds. */
  function Inserting(s: System, i: nat, x': Session, e: Entry): System
    requires i < |s.sessions|
  {
    Put(s, i, x').(rows := s.rows + [Row(i, e)])
  }

  lemma InsertPending(s: System, i: nat, x': Session, e: Entry, a: AccountId)
    requires LocksOk(s) && i < |s.sessions|
    requires e.account in s.sessions[i].Held() && x'.Inserted() == s.sessions[i].Inserted() + [e]
    ensures Pending(Inserting(s, i, x', e), a) == Pending(s, a) + RowsOn([Row(i, e)], a)
  {
    assert [Row(i, e)][..0] == [];
    var before := s.sessions[i].Inserted();
    if a in s.holder && s.holder[a] == i {
      TagGrows(i, before, e);
      RowsOnConcat(Tag(i, before), [Row(i, e)], a);
    } else {
      assert e.account != a;
      assert RowsOn([Row(i, e)], a) == [];
    }
  }

  lemma InsertRows(s: System, db: Database, i: nat, x': Session, e: Entry, a: AccountId)
    requires LocksOk(s) && RowsOk(s, db, a) && i < |s.sessions| && !s.sessions[i].Finished()
    requires e.account in s.sessions[i].Held() && x'.Inserted() == s.sessions[i].Inserted() + [e]
    ensures RowsOk(Inserting(s, i, x', e), db, a)
  {
    var s' := Inserting(s, i, x', e);
    var done: seq<Row> :| RowsOn(s.rows, a) == done + Pending(s, a) && AllCommitted(s, done)
                           && Bare(done) == EntriesOn(db.entries, a);
    InsertPending(s, i, x', e, a);
    RowsOnConcat(s.rows, [Row(i, e)], a);
    ConcatAssoc(done, Pending(s, a), RowsOn([Row(i, e)], a));
    assert AllCommitted(s', done);
  }

  lemma ConcatAssoc(xs: seq<Row>, ys: seq<Row>, zs: seq<Row>)
    ensures xs + (ys + zs) == xs + ys + zs
  {
  }

  // ---------- Steps that commit nothing ----------

  /** Only session `i` changed, it still serves the same operation, and nothing was committed. */
  predicate OnlySession(s: System, s': System, i: nat)
  {
    && i < |s.sessions| && |s'.sessions| == |s.sessions|
    && s'.systemAccount == s.systemAccount && s'.accounts == s.accounts && s'.commits == s.commits
    && s'.sessions[i].op == s.sessions[i].op
    && (forall j :: 0 <= j < |s.sessions| && j != i ==> s'.sessions[j] == s.sessions[j])
    && !s.sessions[i].stage.Committed? && !s'.sessions[i].stage.Committed?
  }

  lemma {:induction false} SameCommitted(s: System, s': System, rows: seq<Row>)
    requires |s'.sessions| == |s.sessions|
    requires forall j :: 0 <= j < |s.sessions| ==> (s'.sessions[j].stage.Committed? <==> s.sessions[j].stage.Committed?)
    ensures CommittedRows(s', rows) == CommittedRows(s, rows)
  {
    if rows != [] {
      SameCommitted(s, s', rows[..|rows| - 1]);
    }
  }

  lemma QuietStep(s: System, s': System, db: Database, i: nat)
    requires Inv(s, db) && OnlySession(s, s', i)
    requires SessionOk(s.accounts, s'.sessions[i]) && PlanOk(s.systemAccount, s.accounts, s'.sessions[i])
    requires LocksOk(s') && LogOk(s', db) && CommittedRows(s, s'.rows) == CommittedRows(s, s.rows)
    ensures Inv(s', db)
  {
    SameCommitted(s, s', s'.rows);
    forall t ensures Sum(OfTx(t), CommittedRows(s', s'.rows)) == 0 {
      assert Sum(OfTx(t), CommittedRows(s, s.rows)) == 0;
    }
    forall j | 0 <= j < |s'.sessions|
      ensures SessionOk(s'.accounts, s'.sessions[j]) && PlanOk(s'.systemAccount, s'.accounts, s'.sessions[j])
    {
      assert SessionOk(s.accounts, s.sessions[j]) && PlanOk(s.systemAccount, s.accounts, s.sessions[j]);
    }
  }

  lemma {:induction false} CommittedRowsConcat(s: System, xs: seq<Row>, ys: seq<Row>)
    ensures CommittedRows(s, xs + ys) == CommittedRows(s, xs) + CommittedRows(s, ys)
  {
    if ys == [] {
      assert xs + ys == xs;
    } else {
      var n := |ys| - 1;
      CommittedRowsConcat(s, xs, ys[..n]);
      assert (xs + ys)[..|xs| + n] == xs + ys[..n];
    }
  }

  lemma {:induction false} CommittedWithout(s: System, rows: seq<Row>, i: nat)
    requires i < |s.sessions| && !s.sessions[i].stage.Committed?
    ensures CommittedRows(s, Without(rows, i)) == CommittedRows(s, rows)
  {
    if rows != [] {
      var n := |rows| - 1;
      CommittedWithout(s, rows[..n], i);
      CommittedRowsConcat(s, Without(rows[..n], i), [rows[n]]);
      CommittedOne(s, rows[n]);
    }
  }

  lemma CommittedOne(s: System, r: Row)
    ensures CommittedRows(s, [r])
            == if r.owner < |s.sessions| && s.sessions[r.owner].stage.Committed? then [r.entry] else []
  {
    assert [r][..0] == [];
  }

  lemma RollbackKeeps(s: System, db: Database, i: nat, why: Cause)
    requires Inv(s, db) && i < |s.sessions| && !s.sessions[i].Finished()
    requires why == VersionCheck
             ==> && s.sessions[i].op.Transfer?
                 && s.sessions[i].op.from == Resolve(s.accounts, s.systemAccount, s.sessions[i].op.to)
    ensures Inv(Rollback(s, i, why), db)
  {
    var s' := Rollback(s, i, why);
    assert SessionOk(s.accounts, s.sessions[i]) && PlanOk(s.systemAccount, s.accounts, s.sessions[i]);
    RollbackLocks(s, i, why);
    RollbackLog(s, db, i, why);
    CommittedWithout(s, s.rows, i);
    QuietStep(s, s', db, i);
  }

  lemma RollbackLocks(s: System, i: nat, why: Cause)
    requires LocksOk(s) && i < |s.sessions|
    ensures LocksOk(Rollback(s, i, why))
  {
  }

  lemma RollbackLog(s: System, db: Database, i: nat, why: Cause)
    requires LocksOk(s) && LogOk(s, db) && i < |s.sessions| && !s.sessions[i].Finished()
    ensures LogOk(Rollback(s, i, why), db)
  {
    var s' := Rollback(s, i, why);
    forall a ensures RowsOk(s', db, a) {
      assert RowsOk(s, db, a);
      RollbackRows(s, db, i, why, a);
    }
    forall j | 0 <= j < |s'.sessions| ensures OwnerOk(s', j) {
      assert OwnerOk(s, j);
      OwnedWithout(s.rows, i, j);
    }
    OwnedWithout(s.rows, i, i);
  }

  /** A step of session `i` that touches neither locks nor rows. */
  lemma LocalKeeps(s: System, db: Database, i: nat, x': Session)
    requires Inv(s, db) && i < |s.sessions| && !s.sessions[i].Finished() && !x'.Finished() && x'.op == s.sessions[i].op
    requires SessionOk(s.accounts, x') && PlanOk(s.systemAccount, s.accounts, x')
    requires x'.Held() == s.sessions[i].Held() && x'.Inserted() == s.sessions[i].Inserted()
             && x'.local.rows == s.sessions[i].local.rows
    ensures Inv(Put(s, i, x'), db)
  {
    var s' := Put(s, i, x');
    LocalLocks(s, i, x');
    forall a ensures RowsOk(s', db, a) {
      assert RowsOk(s, db, a);
      SameRows(s, s', db, a);
    }
    forall j | 0 <= j < |s'.sessions| ensures OwnerOk(s', j) {
      assert OwnerOk(s, j);
    }
    QuietStep(s, s', db, i);
  }

  lemma LocalLocks(s: System, i: nat, x': Session)
    requires LocksOk(s) && i < |s.sessions| && x'.Held() == s.sessions[i].Held()
    ensures LocksOk(Put(s, i, x'))
  {
  }

  lemma BeginKeeps(s: System, db: Database, i: nat)
    requires Inv(s, db) && i < |s.sessions| && s.sessions[i].stage.Beginning?
    ensures Inv(Begin(s, i), db)
  {
    var x := s.sessions[i];
    assert SessionOk(s.accounts, x);
    match x.op
    case Transfer(_, _, _, _) =>
      LocalKeeps(s, db, i, Begin(s, i).sessions[i]);
    case Reverse(id) =>
      var found := EntriesOf(CommittedRows(s, s.rows), id);
      if found == [] {
        RollbackKeeps(s, db, i, NoEntries);
      } else {
        SumOfSelected(CommittedRows(s, s.rows), id);
        assert Sum(OfTx(id), CommittedRows(s, s.rows)) == 0 && Cancels(found);
        LocalKeeps(s, db, i, Begin(s, i).sessions[i]);
      }
  }

  /** The session after one more successful statement. */
  function Advanced(x: Session, local: Local): Session {
    x.(next := x.next + 1, local := local)
  }

  lemma StatementDone(s: System, db: Database, i: nat, local: Local)
    requires Inv(s, db) && i < |s.sessions| && s.sessions[i].stage.Running? && s.sessions[i].next < |s.sessions[i].plan|
    requires var x := s.sessions[i]; Do(s.accounts, WrittenId(x.op), x.local, x.plan[x.next]) == Ok(local)
    ensures SessionOk(s.accounts, Advanced(s.sessions[i], local))
            && PlanOk(s.systemAccount, s.accounts, Advanced(s.sessions[i], local))
    ensures Confined(s.accounts, WrittenId(s.sessions[i].op), s.sessions[i].local)
    ensures Confined(s.accounts, WrittenId(s.sessions[i].op), local)
  {
    var x := s.sessions[i];
    assert SessionOk(s.accounts, x) && PlanOk(s.systemAccount, s.accounts, x);
    ExecNext(s.accounts, WrittenId(x.op), x.plan, x.next);
    ExecConfined(s.accounts, WrittenId(x.op), x.plan[..x.next]);
    ExecConfined(s.accounts, WrittenId(x.op), x.plan[..x.next + 1]);
  }

  lemma LockKeeps(s: System, db: Database, i: nat, local: Local)
    requires Inv(s, db) && i < |s.sessions| && WantsLock(s.sessions[i]) && !Blocked(s, i)
    requires var x := s.sessions[i]; Do(s.accounts, WrittenId(x.op), x.local, x.plan[x.next]) == Ok(local)
    ensures Inv(Put(s, i, Advanced(s.sessions[i], local)).(holder := s.holder[Wanted(s.sessions[i]) := i]), db)
  {
    var x, key := s.sessions[i], Wanted(s.sessions[i]);
    var x' := Advanced(x, local);
    var s' := Put(s, i, x').(holder := s.holder[key := i]);
    StatementDone(s, db, i, local);
    LockTable(s, i, x');
    LockLog(s, db, i, x');
    QuietStep(s, s', db, i);
  }

  lemma LockTable(s: System, i: nat, x': Session)
    requires LocksOk(s) && i < |s.sessions| && WantsLock(s.sessions[i]) && !Blocked(s, i)
    requires x'.Held() == s.sessions[i].Held() + {Wanted(s.sessions[i])}
    ensures LocksOk(Put(s, i, x').(holder := s.holder[Wanted(s.sessions[i]) := i]))
  {
  }

  lemma LockLog(s: System, db: Database, i: nat, x': Session)
    requires LocksOk(s) && LogOk(s, db) && i < |s.sessions| && WantsLock(s.sessions[i]) && !Blocked(s, i)
    requires x'.stage.Running? && x'.local.rows == s.sessions[i].local.rows && x'.op == s.sessions[i].op
    requires forall e :: e in s.sessions[i].Inserted() ==> e.account in s.sessions[i].Held()
    ensures LogOk(Put(s, i, x').(holder := s.holder[Wanted(s.sessions[i]) := i]), db)
  {
    var key := Wanted(s.sessions[i]);
    var s' := Put(s, i, x').(holder := s.holder[key := i]);
    forall a ensures RowsOk(s', db, a) {
      assert RowsOk(s, db, a);
      if a == key {
        LockPending(s, i, x');
      }
      SameRows(s, s', db, a);
    }
    forall j | 0 <= j < |s'.sessions| ensures OwnerOk(s', j) {
      assert OwnerOk(s, j);
    }
  }

  /** A lock that was free has no pending rows, also not of the session that takes it. */
  lemma LockPending(s: System, i: nat, x': Session)
    requires LocksOk(s) && i < |s.sessions| && WantsLock(s.sessions[i]) && !Blocked(s, i)
    requires x'.Inserted() == s.sessions[i].Inserted()
    requires forall e :: e in s.sessions[i].Inserted() ==> e.account in s.sessions[i].Held()
    ensures var key := Wanted(s.sessions[i]);
            Pending(Put(s, i, x').(holder := s.holder[key := i]), key) == Pending(s, key)
  {
    var key := Wanted(s.sessions[i]);
    if key !in s.holder {
      NoneOn(i, s.sessions[i].Inserted(), key);
    }
  }

  lemma {:induction false} NoneOn(i: nat, entries: seq<Entry>, a: AccountId)
    requires forall e :: e in entries ==> e.account != a
    ensures RowsOn(Tag(i, entries), a) == [] && EntriesOn(entries, a) == []
  {
    if entries != [] {
      var n := |entries| - 1;
      assert entries[n] in entries && forall e :: e in entries[..n] ==> e in entries;
      NoneOn(i, entries[..n], a);
      assert Tag(i, entries)[..n] == Tag(i, entries[..n]);
    }
  }

  lemma InsertKeeps(s: System, db: Database, i: nat, local: Local)
    requires Inv(s, db) && i < |s.sessions| && s.sessions[i].stage.Running? && s.sessions[i].next < |s.sessions[i].plan|
    requires var x := s.sessions[i];
             x.plan[x.next].Insert? && Do(s.accounts, WrittenId(x.op), x.local, x.plan[x.next]) == Ok(local)
    ensures Inv(Inserting(s, i, Advanced(s.sessions[i], local), local.rows[|local.rows| - 1]), db)
  {
    var x, x' := s.sessions[i], Advanced(s.sessions[i], local);
    var e := local.rows[|local.rows| - 1];
    StatementDone(s, db, i, local);
    assert local.rows == x.local.rows + [e] && e in local.rows;
    InsertLocks(s, i, x', e);
    InsertLog(s, db, i, x', e);
    CommittedRowsConcat(s, s.rows, [Row(i, e)]);
    CommittedOne(s, Row(i, e));
    QuietStep(s, Inserting(s, i, x', e), db, i);
  }

  lemma InsertLocks(s: System, i: nat, x': Session, e: Entry)
    requires LocksOk(s) && i < |s.sessions| && x'.Held() == s.sessions[i].Held()
    ensures LocksOk(Inserting(s, i, x', e))
  {
  }

  lemma InsertLog(s: System, db: Database, i: nat, x': Session, e: Entry)
    requires LocksOk(s) && LogOk(s, db) && i < |s.sessions| && s.sessions[i].stage.Running? && x'.stage.Running?
    requires x'.op == s.sessions[i].op && x'.local.rows == s.sessions[i].local.rows + [e]
    requires e.account in s.sessions[i].Held() && e.txId == WrittenId(x'.op)
    ensures LogOk(Inserting(s, i, x', e), db)
  {
    var s' := Inserting(s, i, x', e);
    forall a ensures RowsOk(s', db, a) {
      assert RowsOk(s, db, a);
      InsertRows(s, db, i, x', e, a);
    }
    forall j | 0 <= j < |s'.sessions| ensures OwnerOk(s', j) {
      assert OwnerOk(s, j);
      OwnedConcat(s.rows, [Row(i, e)], j);
      assert [Row(i, e)][..0] == [];
    }
  }

  lemma UpdateKeeps(s: System, db: Database, i: nat, local: Local)
    requires Inv(s, db) && i < |s.sessions| && s.sessions[i].stage.Running? && s.sessions[i].next < |s.sessions[i].plan|
    requires var x := s.sessions[i];
             x.plan[x.next].Update? && Do(s.accounts, WrittenId(x.op), x.local, x.plan[x.next]) == Ok(local)
    ensures Inv(Put(s, i, Advanced(s.sessions[i], local)), db)
  {
    StatementDone(s, db, i, local);
    LocalKeeps(s, db, i, Advanced(s.sessions[i], local));
  }

  /** A statement fails the version check only in a transfer between one account and itself. */
  lemma FailsVersionCheck(s: System, db: Database, i: nat)
    requires Inv(s, db) && i < |s.sessions| && s.sessions[i].stage.Running? && s.sessions[i].next < |s.sessions[i].plan|
    requires var x := s.sessions[i]; Do(s.accounts, WrittenId(x.op), x.local, x.plan[x.next]) == Err(VersionCheck)
    ensures s.sessions[i].op.Transfer?
    ensures s.sessions[i].op.from == Resolve(s.accounts, s.systemAccount, s.sessions[i].op.to)
  {
    var x := s.sessions[i];
    assert SessionOk(s.accounts, x) && PlanOk(s.systemAccount, s.accounts, x);
    match x.op
    case Transfer(from, to, id, amount) =>
      VersionCheckOnSelf(s.accounts, id, from, Resolve(s.accounts, s.systemAccount, to), amount, x.next);
    case Reverse(_) =>
      var found :| Cancels(found) && x.plan == ReversePlan(found);
      ReversalPasses(s.accounts, WrittenId(x.op), found, x.next);
  }

  lemma IssueKeeps(s: System, db: Database, i: nat)
    requires Inv(s, db) && i < |s.sessions| && s.sessions[i].stage.Running? && s.sessions[i].next < |s.sessions[i].plan|
    requires !Blocked(s, i)
    ensures Inv(Issue(s, i), db)
  {
    var x := s.sessions[i];
    var r := Do(s.accounts, WrittenId(x.op), x.local, x.plan[x.next]);
    if r.Err? {
      if r.error == VersionCheck {
        FailsVersionCheck(s, db, i);
      }
      RollbackKeeps(s, db, i, r.error);
    } else {
      match x.plan[x.next]
      case Lock(_) => LockKeeps(s, db, i, r.value);
      case Insert(_) => InsertKeeps(s, db, i, r.value);
      case Update(_) => UpdateKeeps(s, db, i, r.value);
    }
  }

  // ---------- Commits ----------

  /** What a session does whose statements have all succeeded, from any accounts and log. */
  ghost predicate Posts(db: Database, system: AccountId, x: Session, after: Database) {
    && IsPosted(db, x.local, after)
    && match x.op
       case Transfer(_, _, _, _) => Enabled(db, system, x.op) && after == Apply(db, system, x.op)
       case Reverse(id) =>
         exists found :: Cancels(found) && x.plan == ReversePlan(found) && AccountsKnown(db.accounts, found)
                         && after == Negated(db, ReversalId(id), found)
  }

  lemma CommittingPosts(db: Database, system: AccountId, x: Session) returns (after: Database)
    requires x.Committing() && SessionOk(db.accounts, x) && PlanOk(system, db.accounts, x)
    ensures Posts(db, system, x, after) && Confined(db.accounts, WrittenId(x.op), x.local)
  {
    assert x.plan[..x.next] == x.plan;
    ExecConfined(db.accounts, WrittenId(x.op), x.plan);
    match x.op
    case Transfer(from, to, id, amount) =>
      TransferIsPosted(db, system, x.op);
      TransferSides(db.accounts, id, from, Resolve(db.accounts, system, to), amount);
      return Apply(db, system, x.op);
    case Reverse(id) =>
      var found :| Cancels(found) && x.plan == ReversePlan(found);
      ReversalSucceeds(db.accounts, WrittenId(x.op), found);
      ReversalIsNegated(db, WrittenId(x.op), found);
      return Negated(db, ReversalId(id), found);
  }

  /** The rows of a session that commits cancel out under every id. */
  lemma CommittingCancels(accounts: map<AccountId, Account>, system: AccountId, x: Session, t: TxId)
    requires x.Committing() && SessionOk(accounts, x) && PlanOk(system, accounts, x)
    ensures Sum(OfTx(t), x.local.rows) == 0
  {
    var db := Database(accounts, [], []);
    var after := CommittingPosts(db, system, x);
    assert after.entries == x.local.rows;
    match x.op
    case Transfer(_, _, _, _) =>
      ApplyKeepsBalanced(db, system, x.op);
    case Reverse(id) =>
      var found :| Cancels(found) && AccountsKnown(accounts, found) && after == Negated(db, ReversalId(id), found);
      NegatedSums(db, ReversalId(id), found, OfTx(t));
  }

  /** A commit adds its own rows to the committed ones. */
  lemma {:induction false} CommitSum(s: System, rows: seq<Row>, i: nat, t: TxId)
    requires i < |s.sessions| && !s.sessions[i].stage.Committed?
    ensures Sum(OfTx(t), CommittedRows(Commit(s, i), rows))
            == Sum(OfTx(t), CommittedRows(s, rows)) + Sum(OfTx(t), Owned(rows, i))
  {
    if rows != [] {
      var n := |rows| - 1;
      CommitSum(s, rows[..n], i, t);
      AppendOne(OfTx(t), CommittedRows(Commit(s, i), rows[..n]), rows[n].entry);
      AppendOne(OfTx(t), CommittedRows(s, rows[..n]), rows[n].entry);
      AppendOne(OfTx(t), Owned(rows[..n], i), rows[n].entry);
    }
  }

  lemma {:induction false} EntriesOnConcat(xs: seq<Entry>, ys: seq<Entry>, a: AccountId)
    ensures EntriesOn(xs + ys, a) == EntriesOn(xs, a) + EntriesOn(ys, a)
  {
    if ys == [] {
      assert xs + ys == xs;
    } else {
      var n := |ys| - 1;
      EntriesOnConcat(xs, ys[..n], a);
      assert (xs + ys)[..|xs| + n] == xs + ys[..n];
    }
  }

  lemma {:induction false} TaggedOn(i: nat, entries: seq<Entry>, a: AccountId)
    ensures Bare(RowsOn(Tag(i, entries), a)) == EntriesOn(entries, a)
    ensures forall r :: r in RowsOn(Tag(i, entries), a) ==> r.owner == i
  {
    if entries != [] {
      var n := |entries| - 1;
      TaggedOn(i, entries[..n], a);
      assert Tag(i, entries)[..n] == Tag(i, entries[..n]);
    }
  }

  lemma CommitRows(s: System, entries: seq<Entry>, db: Database, db': Database, i: nat, a: AccountId)
    requires LocksOk(s) && RowsOk(s, db, a) && i < |s.sessions| && s.sessions[i].Committing()
    requires entries == s.sessions[i].Inserted() && db'.entries == db.entries + entries
    requires forall e :: e in entries ==> e.account in s.sessions[i].Held()
    ensures RowsOk(Commit(s, i), db', a)
  {
    var s' := Commit(s, i);
    EntriesOnConcat(db.entries, entries, a);
    var done: seq<Row> :| RowsOn(s.rows, a) == done + Pending(s, a) && AllCommitted(s, done)
                           && Bare(done) == EntriesOn(db.entries, a);
    var pending := Pending(s, a);
    assert RowsOn(s'.rows, a) == done + pending;
    if a in s.sessions[i].Held() {
      CommitPending(s, i, a);
      BareConcat(done, pending);
      assert done + pending + [] == done + pending;
      assert AllCommitted(s', done + pending);
    } else {
      NoneOn(i, entries, a);
      NotPending(s, i, a);
      assert AllCommitted(s', done);
    }
  }

  lemma BareConcat(xs: seq<Row>, ys: seq<Row>)
    ensures Bare(xs + ys) == Bare(xs) + Bare(ys)
  {
  }

  lemma NotPending(s: System, i: nat, a: AccountId)
    requires LocksOk(s) && i < |s.sessions| && a !in s.sessions[i].Held()
    ensures Pending(Commit(s, i), a) == Pending(s, a)
  {
  }

  lemma CommitPending(s: System, i: nat, a: AccountId)
    requires LocksOk(s) && i < |s.sessions| && s.sessions[i].Committing() && a in s.sessions[i].Held()
    ensures Bare(Pending(s, a)) == EntriesOn(s.sessions[i].Inserted(), a)
    ensures forall r :: r in Pending(s, a) ==> r.owner == i
    ensures Pending(Commit(s, i), a) == []
  {
    TaggedOn(i, s.sessions[i].Inserted(), a);
  }

  lemma CommitLocks(s: System, i: nat)
    requires LocksOk(s) && i < |s.sessions|
    ensures LocksOk(Commit(s, i))
  {
  }

  lemma CommitLog(s: System, db: Database, db': Database, i: nat)
    requires LocksOk(s) && LogOk(s, db) && i < |s.sessions| && s.sessions[i].Committing()
    requires db'.entries == db.entries + s.sessions[i].local.rows
    requires forall e :: e in s.sessions[i].local.rows ==> e.account in s.sessions[i].Held()
    ensures LogOk(Commit(s, i), db')
  {
    var s' := Commit(s, i);
    forall a ensures RowsOk(s', db', a) {
      assert RowsOk(s, db, a);
      CommitRows(s, s.sessions[i].Inserted(), db, db', i, a);
    }
    forall j | 0 <= j < |s'.sessions| ensures OwnerOk(s', j) {
      assert OwnerOk(s, j);
    }
  }

  lemma SessionElsewhere(accounts: map<AccountId, Account>, accounts': map<AccountId, Account>, x: Session)
    requires SessionOk(accounts, x) && accounts'.Keys == accounts.Keys
    requires forall a :: a in x.Held() && a in accounts ==> accounts'[a] == accounts[a]
    ensures SessionOk(accounts', x)
  {
    if x.stage.Running? {
      ExecElsewhere(accounts, accounts', WrittenId(x.op), x.plan[..x.next]);
    }
  }

  lemma ResolveStays(accounts: map<AccountId, Account>, accounts': map<AccountId, Account>, system: AccountId,
                     to: AccountId)
    requires accounts'.Keys == accounts.Keys
    ensures Resolve(accounts', system, to) == Resolve(accounts, system, to)
  {
    assert to in accounts' <==> to in accounts'.Keys;
  }

  lemma PlanStays(accounts: map<AccountId, Account>, accounts': map<AccountId, Account>, system: AccountId, x: Session)
    requires PlanOk(system, accounts, x) && accounts'.Keys == accounts.Keys
    ensures PlanOk(system, accounts', x)
  {
    if x.op.Transfer? {
      ResolveStays(accounts, accounts', system, x.op.to);
    }
  }

  lemma Disjoint(s: System, i: nat, j: nat)
    requires LocksOk(s) && i < |s.sessions| && j < |s.sessions| && i != j
    ensures s.sessions[i].Held() !! s.sessions[j].Held()
  {
    forall a | a in s.sessions[i].Held() ensures a !in s.sessions[j].Held() {
      assert a in s.holder && s.holder[a] == i;
    }
  }

  lemma CommittedElsewhere(s: System, i: nat, j: nat)
    requires i < |s.sessions| && j < |s.sessions| && s.sessions[i].Committing()
    requires SessionOk(s.accounts, s.sessions[j]) && s.sessions[i].Held() !! s.sessions[j].Held()
    requires Confined(s.accounts, WrittenId(s.sessions[i].op), s.sessions[i].local)
    ensures SessionOk(Commit(s, i).accounts, s.sessions[j])
  {
    SessionElsewhere(s.accounts, Commit(s, i).accounts, s.sessions[j]);
  }

  /** What session `i` leaves behind when it commits. */
  lemma CommittedOk(accounts: map<AccountId, Account>, accounts': map<AccountId, Account>, system: AccountId,
                    x: Session)
    requires SessionOk(accounts, x) && PlanOk(system, accounts, x) && x.Committing() && accounts'.Keys == accounts.Keys
    ensures SessionOk(accounts', x.(stage := Committed)) && PlanOk(system, accounts', x.(stage := Committed))
  {
    var after := CommittingPosts(Database(accounts, [], []), system, x);
    if x.op.Transfer? {
      ResolveStays(accounts, accounts', system, x.op.to);
    }
  }

  lemma CommitSessions(s: System, i: nat)
    requires SessionsOk(s) && LocksOk(s) && i < |s.sessions| && s.sessions[i].Committing()
    requires Confined(s.accounts, WrittenId(s.sessions[i].op), s.sessions[i].local)
    ensures SessionsOk(Commit(s, i))
  {
    var s' := Commit(s, i);
    assert s'.accounts.Keys == s.accounts.Keys;
    forall j | 0 <= j < |s.sessions|
      ensures SessionOk(s'.accounts, s'.sessions[j]) && PlanOk(s'.systemAccount, s'.accounts, s'.sessions[j])
    {
      assert SessionOk(s.accounts, s.sessions[j]) && PlanOk(s.systemAccount, s.accounts, s.sessions[j]);
      if j == i {
        CommittedOk(s.accounts, s'.accounts, s.systemAccount, s.sessions[i]);
      } else {
        Disjoint(s, i, j);
        CommittedElsewhere(s, i, j);
        PlanStays(s.accounts, s'.accounts, s.systemAccount, s.sessions[j]);
      }
    }
  }

  lemma CommitIds(s: System, i: nat)
    requires IdsCancel(s) && i < |s.sessions| && s.sessions[i].Committing() && OwnerOk(s, i)
    requires SessionOk(s.accounts, s.sessions[i]) && PlanOk(s.systemAccount, s.accounts, s.sessions[i])
    ensures IdsCancel(Commit(s, i))
  {
    var s' := Commit(s, i);
    forall t ensures Sum(OfTx(t), CommittedRows(s', s'.rows)) == 0 {
      assert Sum(OfTx(t), CommittedRows(s, s.rows)) == 0;
      CommitSum(s, s.rows, i, t);
      CommittingCancels(s.accounts, s.systemAccount, s.sessions[i], t);
    }
  }

  /** A commit adds to `db` what its session has written and inserted. */
  lemma CommitKeeps(s: System, db: Database, db': Database, i: nat)
    requires Inv(s, db) && i < |s.sessions| && s.sessions[i].Committing()
    requires IsPosted(db, s.sessions[i].local, db')
    ensures Inv(Commit(s, i), db')
  {
    assert SessionOk(s.accounts, s.sessions[i]) && PlanOk(s.systemAccount, s.accounts, s.sessions[i]) && OwnerOk(s, i);
    var after := CommittingPosts(db, s.systemAccount, s.sessions[i]);
    CommitSessions(s, i);
    CommitLocks(s, i);
    CommitLog(s, db, db', i);
    CommitIds(s, i);
  }

  // ---------- Whole executions ----------

  predicate Commits(s: System, t: Tick) {
    t.session < |s.sessions| && s.sessions[t.session].Committing() && !t.fault
  }

  /** A step commits at most one session, and then `db` gets what that session has written. */
  predicate Follows(s: System, t: Tick, db: Database, db': Database) {
    if Commits(s, t) then IsPosted(db, s.sessions[t.session].local, db') else db' == db
  }

  lemma StepKeeps(s: System, db: Database, db': Database, t: Tick)
    requires Inv(s, db) && Follows(s, t, db, db')
    ensures Inv(Step(s, t.session, t.fault), db')
  {
    var i := t.session;
    if i < |s.sessions| && !s.sessions[i].Finished() {
      if t.fault {
        RollbackKeeps(s, db, i, Fault);
      } else if s.sessions[i].Committing() {
        CommitKeeps(s, db, db', i);
      } else if s.sessions[i].stage.Beginning? {
        BeginKeeps(s, db, i);
      } else if !Blocked(s, i) {
        IssueKeeps(s, db, i);
      }
    }
  }

  lemma BeginsOk(w: Setting)
    ensures Inv(w.Begins(), Database(w.opening, [], []))
  {
    var start := w.Begins();
    forall a ensures RowsOk(start, Database(w.opening, [], []), a) {
      assert RowsOn(start.rows, a) == [] + Pending(start, a);
    }
  }

  /** Only session `i` may differ, and it still serves the same operation. */
  predicate OwnStep(s: System, s': System, i: nat) {
    && i < |s.sessions| == |s'.sessions| && s'.systemAccount == s.systemAccount
    && s'.sessions[i].op == s.sessions[i].op
    && forall j :: 0 <= j < |s.sessions| && j != i ==> s'.sessions[j] == s.sessions[j]
  }

  lemma BeginShape(s: System, i: nat)
    requires i < |s.sessions|
    ensures OwnStep(s, Begin(s, i), i) && Begin(s, i).commits == s.commits
  {
  }

  lemma IssueShape(s: System, i: nat)
    requires i < |s.sessions| && s.sessions[i].next < |s.sessions[i].plan|
    ensures OwnStep(s, Issue(s, i), i) && Issue(s, i).commits == s.commits
  {
  }

  /** A step changes only its own session, keeps the operations, and records a commit. */
  lemma StepShape(s: System, t: Tick)
    ensures var s' := Step(s, t.session, t.fault);
            && |s'.sessions| == |s.sessions| && s'.systemAccount == s.systemAccount
            && (forall j :: 0 <= j < |s.sessions| ==> s'.sessions[j].op == s.sessions[j].op)
            && (forall j :: 0 <= j < |s.sessions| && j != t.session ==> s'.sessions[j] == s.sessions[j])
            && s'.commits == s.commits + if Commits(s, t) then [t.session] else []
  {
    var i := t.session;
    if i < |s.sessions| && !s.sessions[i].Finished() && !t.fault && !Blocked(s, i) {
      if s.sessions[i].stage.Beginning? {
        BeginShape(s, i);
      } else if s.sessions[i].next < |s.sessions[i].plan| {
        IssueShape(s, i);
      }
    }
  }

  lemma {:induction false} ExecuteShape(s: System, schedule: seq<Tick>)
    ensures var s' := Execute(s, schedule);
            && |s'.sessions| == |s.sessions| && s'.systemAccount == s.systemAccount
            && forall j :: 0 <= j < |s.sessions| ==> s'.sessions[j].op == s.sessions[j].op
  {
    if schedule != [] {
      var n := |schedule| - 1;
      ExecuteShape(s, schedule[..n]);
      StepShape(Execute(s, schedule[..n]), schedule[n]);
    }
  }

  // ---------- What committed readers see ----------

  lemma {:induction false} AllOrNone(s: System, xs: seq<Row>)
    ensures AllCommitted(s, xs) ==> CommittedRows(s, xs) == Bare(xs)
    ensures (forall r :: r in xs ==> r.owner < |s.sessions| && !s.sessions[r.owner].stage.Committed?)
            ==> CommittedRows(s, xs) == []
  {
    if xs != [] {
      var n := |xs| - 1;
      AllOrNone(s, xs[..n]);
      assert xs == xs[..n] + [xs[n]];
    }
  }

  /** The committed rows on an account are those of `db`, in commit order. */
  lemma CommittedRowsOn(s: System, db: Database, a: AccountId)
    requires Inv(s, db)
    ensures CommittedRows(s, RowsOn(s.rows, a)) == EntriesOn(db.entries, a)
  {
    assert RowsOk(s, db, a);
    var done: seq<Row> :| RowsOn(s.rows, a) == done + Pending(s, a) && AllCommitted(s, done)
                           && Bare(done) == EntriesOn(db.entries, a);
    CommittedRowsConcat(s, done, Pending(s, a));
    AllOrNone(s, done);
    AllOrNone(s, Pending(s, a));
    if a in s.holder {
      TaggedOn(s.holder[a], s.sessions[s.holder[a]].Inserted(), a);
    }
  }
}
