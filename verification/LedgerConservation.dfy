/**
 What holds of concurrent transfers and reversals without any condition on them:
 under every schedule and every fault, whatever ids they share, no money appears
 or vanishes, every id cancels out, and the cached balances agree with the log.
 */
module LedgerConservation {
  import opened AccountOrder
  import opened Ledger
  import opened LedgerRuns
  import opened LedgerStatements
  import opened LedgerConcurrency
  import opened LedgerLocking

  /** The committed accounts are those that the committed rows make of the opening ones. */
  ghost predicate Kept(opening: map<AccountId, Account>, db: Database) {
    Agrees(opening, db) && Total(db.accounts) == Total(opening)
  }

  lemma PostsKeeps(opening: map<AccountId, Account>, db: Database, system: AccountId, x: Session, after: Database)
    requires Kept(opening, db) && Posts(db, system, x, after)
    ensures Kept(opening, after)
  {
    match x.op
    case Transfer(_, _, _, _) =>
      ApplyKeepsAgreement(opening, db, system, x.op);
      TransferKeepsTotal(db, system, x.op);
    case Reverse(id) =>
      var found :| Cancels(found) && AccountsKnown(db.accounts, found) && after == Negated(db, ReversalId(id), found);
      NegatedKeepsAgreement(opening, db, ReversalId(id), found);
      NegatedMovesTotal(db, ReversalId(id), found);
  }

  lemma TransferKeepsTotal(db: Database, system: AccountId, op: Op)
    requires op.Transfer? && Enabled(db, system, op)
    ensures Total(Apply(db, system, op).accounts) == Total(db.accounts)
  {
    var bare := Database(db.accounts, [], []);
    ApplyKeepsTotal(bare, system, op);
    assert Apply(db, system, op).accounts == Apply(bare, system, op).accounts;
  }

  /** Every reachable state has such a database behind it. */
  lemma {:induction false} ReachableKept(w: Setting, schedule: seq<Tick>)
    returns (db: Database)
    ensures Inv(Execute(w.Begins(), schedule), db) && Kept(w.opening, db)
  {
    if schedule == [] {
      BeginsOk(w);
      return Database(w.opening, [], []);
    } else {
      var n := |schedule| - 1;
      var before := ReachableKept(w, schedule[..n]);
      db := StepKeepsKept(Execute(w.Begins(), schedule[..n]), w.opening, before, schedule[n]);
    }
  }

  lemma StepKeepsKept(s: System, opening: map<AccountId, Account>, before: Database, t: Tick) returns (db: Database)
    requires Inv(s, before) && Kept(opening, before)
    ensures Inv(Step(s, t.session, t.fault), db) && Kept(opening, db)
  {
    db := before;
    if Commits(s, t) {
      var x := s.sessions[t.session];
      assert SessionOk(s.accounts, x) && PlanOk(s.systemAccount, s.accounts, x);
      db := CommittingPosts(before, s.systemAccount, x);
      PostsKeeps(opening, before, s.systemAccount, x, db);
    }
    StepKeeps(s, before, db, t);
  }

  // ---------- Conservation ----------

  /** Under any schedule no money appears or vanishes. */
  lemma ConcurrentRunsConserve(w: Setting, schedule: seq<Tick>)
    ensures var s := Execute(w.Begins(), schedule);
            Total(s.accounts) == Total(w.opening) && s.accounts.Keys == w.opening.Keys
  {
    var db := ReachableKept(w, schedule);
  }

  /** Under any schedule the committed rows of every transaction id, reversal ids included, cancel out. */
  lemma ConcurrentIdsCancel(w: Setting, schedule: seq<Tick>, t: TxId)
    ensures var s := Execute(w.Begins(), schedule);
            Sum(OfTx(t), CommittedRows(s, s.rows)) == 0
  {
    var db := ReachableKept(w, schedule);
    var s := Execute(w.Begins(), schedule);
    assert IdsCancel(s);
  }

  lemma {:induction false} SumsOn(entries: seq<Entry>, a: AccountId)
    ensures Sum(OfAccount(a), EntriesOn(entries, a)) == Sum(OfAccount(a), entries)
    ensures |EntriesOn(entries, a)| == Count(OfAccount(a), entries)
  {
    if entries != [] {
      var n := |entries| - 1;
      SumsOn(entries[..n], a);
      AppendOne(OfAccount(a), EntriesOn(entries[..n], a), entries[n]);
    }
  }

  /** Under any schedule the balance and version of every account are those that its committed rows add up to. */
  lemma ConcurrentBalancesAgree(w: Setting, schedule: seq<Tick>, a: AccountId)
    requires a in w.opening
    ensures var s := Execute(w.Begins(), schedule);
            var rows := CommittedRows(s, RowsOn(s.rows, a));
            && a in s.accounts
            && s.accounts[a].balance == w.opening[a].balance + Sum(OfAccount(a), rows)
            && s.accounts[a].version == w.opening[a].version + |rows|
  {
    var db := ReachableKept(w, schedule);
    CommittedRowsOn(Execute(w.Begins(), schedule), db, a);
    SumsOn(db.entries, a);
  }

  /**
   The version check: under any schedule, a session rolled back by it is a
   transfer with one and the same row on both sides, and such a transfer never
   commits.
   */
  lemma VersionCheckOnlyOnSelfTransfer(w: Setting, schedule: seq<Tick>, i: nat)
    requires i < |w.ops|
    ensures var s := Execute(w.Begins(), schedule);
            && i < |s.sessions|
            && (s.sessions[i].stage == RolledBack(VersionCheck)
                ==> w.ops[i].Transfer? && w.ops[i].from == Resolve(w.opening, w.system, w.ops[i].to))
            && (s.sessions[i].stage.Committed? && w.ops[i].Transfer?
                ==> w.ops[i].from != Resolve(w.opening, w.system, w.ops[i].to))
  {
    var start := w.Begins();
    var db := ReachableKept(w, schedule);
    ExecuteShape(start, schedule);
    var s := Execute(start, schedule);
    assert PlanOk(s.systemAccount, s.accounts, s.sessions[i]);
    if w.ops[i].Transfer? {
      ResolveStays(w.opening, s.accounts, w.system, w.ops[i].to);
    }
  }

  // ---------- Entry types ----------

  /** The rows a session may still insert have the type of their sign. */
  predicate TypedPlan(plan: seq<Statement>) {
    forall k :: 0 <= k < |plan| && plan[k].Insert?
      ==> plan[k].leg.amount != 0 && (plan[k].leg.entryType == DEBIT <==> plan[k].leg.amount < 0)
  }

  predicate TypedRows(rows: seq<Row>) {
    forall r :: r in rows ==> r.entry.amount != 0 && (r.entry.entryType == DEBIT <==> r.entry.amount < 0)
  }

  ghost predicate TypesOk(s: System) {
    && TypedRows(s.rows)
    && forall i :: 0 <= i < |s.sessions| ==> Positive(s.sessions[i].op) && TypedPlan(s.sessions[i].plan)
  }

  lemma {:induction false} CommittedTyped(s: System, rows: seq<Row>)
    requires TypedRows(rows)
    ensures Typed(CommittedRows(s, rows))
  {
    if rows != [] {
      var n := |rows| - 1;
      assert rows[n] in rows;
      CommittedTyped(s, rows[..n]);
    }
  }

  lemma {:induction false} ReversePlanTyped(found: seq<Entry>)
    requires Typed(found)
    ensures TypedPlan(ReversePlan(found))
  {
    if found != [] {
      var n := |found| - 1;
      assert found[n] in found;
      ReversePlanTyped(found[..n]);
    }
  }

  lemma BeginKeepsTypes(s: System, i: nat)
    requires TypesOk(s) && i < |s.sessions|
    ensures TypesOk(Begin(s, i))
  {
    match s.sessions[i].op
    case Transfer(_, _, _, _) =>
    case Reverse(id) =>
      CommittedTyped(s, s.rows);
      ReversePlanTyped(EntriesOf(CommittedRows(s, s.rows), id));
      RollbackKeepsTypes(s, i, NoEntries);
  }

  lemma RollbackKeepsTypes(s: System, i: nat, why: Cause)
    requires TypesOk(s) && i < |s.sessions|
    ensures TypesOk(Rollback(s, i, why))
  {
    OwnedWithout(s.rows, i, i);
  }

  lemma IssueKeepsTypes(s: System, i: nat)
    requires TypesOk(s) && i < |s.sessions| && s.sessions[i].next < |s.sessions[i].plan|
    ensures TypesOk(Issue(s, i))
  {
    var x := s.sessions[i];
    RollbackKeepsTypes(s, i, MissingRow);
    RollbackKeepsTypes(s, i, VersionCheck);
    if x.plan[x.next].Insert? {
      assert TypedPlan(x.plan);
    }
  }

  lemma StepKeepsTypes(s: System, t: Tick)
    requires TypesOk(s)
    ensures TypesOk(Step(s, t.session, t.fault))
  {
    var i := t.session;
    if i < |s.sessions| && !s.sessions[i].Finished() {
      if t.fault {
        RollbackKeepsTypes(s, i, Fault);
      } else if s.sessions[i].stage.Beginning? {
        BeginKeepsTypes(s, i);
      } else if s.sessions[i].next < |s.sessions[i].plan| {
        IssueKeepsTypes(s, i);
      }
    }
  }

  lemma {:induction false} ReachableTypes(w: Setting, schedule: seq<Tick>)
    requires forall op :: op in w.ops ==> Positive(op)
    ensures TypesOk(Execute(w.Begins(), schedule))
  {
    if schedule != [] {
      var n := |schedule| - 1;
      ReachableTypes(w, schedule[..n]);
      StepKeepsTypes(Execute(w.Begins(), schedule[..n]), schedule[n]);
    }
  }

  /**
   Under any schedule, if every transfer moves a positive amount, each committed row is a
   DEBIT exactly if it takes money out.
   */
  lemma ConcurrentTypesAgree(w: Setting, schedule: seq<Tick>)
    requires forall op :: op in w.ops ==> Positive(op)
    ensures var s := Execute(w.Begins(), schedule);
            forall e :: e in CommittedRows(s, s.rows) ==> e.amount != 0 && (e.entryType == DEBIT <==> e.amount < 0)
  {
    ReachableTypes(w, schedule);
    var s := Execute(w.Begins(), schedule);
    CommittedTyped(s, s.rows);
  }
}
