/**
 When a reversal can deadlock: it locks the debit account of its transfer first,
 so exactly when that is the larger id another transfer between the two accounts
 can meet it half-way.
 */
module LedgerReverseLocks {
  import opened AccountOrder
  import opened Ledger
  import opened LedgerRuns
  import opened LedgerStatements
  import opened LedgerConcurrency
  import opened LedgerLocking
  import opened LedgerDeadlock
  import opened LedgerAlone

  /** Somebody is unfinished, and everybody who is waits for a lock. */
  predicate Deadlocked(s: System) {
    !AllFinished(s) && forall i :: 0 <= i < |s.sessions| ==> s.sessions[i].Finished() || Blocked(s, i)
  }

  /** Without a fault nothing changes any more. */
  lemma {:induction false} NothingMoves(s: System, later: seq<Tick>)
    requires Deadlocked(s) && FaultFree(later)
    ensures Execute(s, later) == s
  {
    if later != [] {
      assert later[|later| - 1] in later;
      NothingMoves(s, later[..|later| - 1]);
    }
  }

  // ---------- A descending transfer ----------

  predicate Descending(accounts: map<AccountId, Account>, system: AccountId, op: Op) {
    op.Transfer? && Enabled(Database(accounts, [], []), system, op) && Less(Resolve(accounts, system, op.to), op.from)
  }

  /** The transfer once more under another id. */
  function Again(tr: Op): Op
    requires tr.Transfer?
  {
    tr.(id := tr.id + "'")
  }

  /** The transfer, its reversal, and some more operations. */
  function WithReversal(system: AccountId, opening: map<AccountId, Account>, tr: Op, others: seq<Op>): Setting
    requires tr.Transfer?
  {
    Setting(system, opening, [tr, Reverse(tr.id)] + others)
  }

  /** The transfer has committed its two rows; the other two sessions have not begun. */
  ghost predicate FirstDone(s: System, db: Database, tr: Op, credit: AccountId)
    requires tr.Transfer?
  {
    && |s.sessions| == 3 && Still(s, db) && s.sessions[0].stage.Committed?
    && s.sessions[1] == Begun(Reverse(tr.id)) && s.sessions[2] == Begun(Again(tr))
    && DebitFirst(db.entries, tr.from, credit) && (forall e :: e in db.entries ==> e.txId == tr.id)
    && credit == Resolve(s.accounts, s.systemAccount, tr.to) && tr.from in s.accounts && credit in s.accounts
  }

  lemma FirstRuns(s: System, tr: Op) returns (ticks: seq<Tick>)
    requires Descending(s.accounts, s.systemAccount, tr)
    requires s == WithReversal(s.systemAccount, s.accounts, tr, [Again(tr)]).Begins()
    ensures FirstDone(Execute(s, ticks), Apply(Database(s.accounts, [], []), s.systemAccount, tr), tr,
                      Resolve(s.accounts, s.systemAccount, tr.to))
  {
    var db := Database(s.accounts, [], []);
    assert Bare(s.rows) == [];
    ticks := RunsAlone(s, db, 0);
    FirstCommits(s, Execute(s, ticks), Apply(db, s.systemAccount, tr), tr);
  }

  lemma FirstCommits(s: System, s': System, db: Database, tr: Op)
    requires Descending(s.accounts, s.systemAccount, tr)
             && db == Apply(Database(s.accounts, [], []), s.systemAccount, tr)
    requires s == WithReversal(s.systemAccount, s.accounts, tr, [Again(tr)]).Begins()
    requires Ran(s, s', 0) && Still(s', db)
    ensures FirstDone(s', db, tr, Resolve(s.accounts, s.systemAccount, tr.to))
  {
    ResolveStays(s.accounts, s'.accounts, s.systemAccount, tr.to);
    assert s'.sessions[1] == s.sessions[1] && s'.sessions[2] == s.sessions[2];
    TransferEntries(Database(s.accounts, [], []), s.systemAccount, tr);
  }

  lemma TransferEntries(db: Database, system: AccountId, tr: Op)
    requires tr.Transfer? && Enabled(db, system, tr) && db.entries == []
    ensures DebitFirst(Apply(db, system, tr).entries, tr.from, Resolve(db.accounts, system, tr.to))
    ensures forall e :: e in Apply(db, system, tr).entries ==> e.txId == tr.id
  {
  }

  // ---------- The reversal's first entry ----------

  /** Session `i` has issued `n` of the three statements for its first entry. */
  predicate FirstLeg(s: System, s': System, i: nat, a: AccountId, n: nat) {
    && i < |s.sessions| == |s'.sessions| && s'.accounts == s.accounts && s'.holder == s.holder[a := i]
    && (forall j :: 0 <= j < |s.sessions| && j != i ==> s'.sessions[j] == s.sessions[j])
    && (var x := s'.sessions[i];
        x.stage.Running? && x.plan == s.sessions[i].plan && x.next == n
        && a in x.local.read && (n < 3 ==> a !in x.local.writes && a in s.accounts && x.local.read[a] == s.accounts[a]))
  }

  lemma Locks(s: System, i: nat, e: Entry)
    requires i < |s.sessions| && s.sessions[i].stage.Running? && s.sessions[i].next == 0
             && s.sessions[i].local == NOTHING_YET
    requires |s.sessions[i].plan| == 6 && s.sessions[i].plan[0] == Lock(e.account)
    requires e.account in s.accounts && e.account !in s.holder
    ensures FirstLeg(s, Step(s, i, false), i, e.account, 1)
  {
    assert !Blocked(s, i) && Step(s, i, false) == Issue(s, i);
  }

  lemma Inserts(s: System, s': System, i: nat, e: Entry)
    requires FirstLeg(s, s', i, e.account, 1) && |s'.sessions[i].plan| == 6
             && s'.sessions[i].plan[1] == Insert(LegOf(e))
    ensures FirstLeg(s, Step(s', i, false), i, e.account, 2)
  {
    assert !Blocked(s', i) && Step(s', i, false) == Issue(s', i);
  }

  lemma Updates(s: System, s': System, i: nat, e: Entry)
    requires FirstLeg(s, s', i, e.account, 2) && |s'.sessions[i].plan| == 6
             && s'.sessions[i].plan[2] == Update(LegOf(e))
    ensures FirstLeg(s, Step(s', i, false), i, e.account, 3)
  {
    assert !Blocked(s', i) && Step(s', i, false) == Issue(s', i);
  }

  /** A reversal that has read its two entries locks and posts the first one. */
  lemma FirstLegRuns(s: System, i: nat, op: Op, rows: seq<Entry>)
    requires i < |s.sessions| && s.sessions[i] == Opened(Begun(op), ReversePlan(rows)) && |rows| == 2
    requires rows[0].account in s.accounts && rows[0].account !in s.holder
    ensures FirstLeg(s, Execute(s, Turns(i, 3)), i, rows[0].account, 3)
  {
    var e := rows[0];
    PlanOfTwo(rows);
    assert Turns(i, 0) == [];
    TurnsSnoc(s, i, 0);
    TurnsSnoc(s, i, 1);
    TurnsSnoc(s, i, 2);
    Locks(s, i, e);
    Inserts(s, Step(s, i, false), i, e);
    Updates(s, Step(Step(s, i, false), i, false), i, e);
  }

  // ---------- The deadlock ----------

  /** The reversal has posted its first entry; then the second transfer begins, and locks the other account. */
  lemma Meet(s: System, s': System, tr: Op, credit: AccountId, rows: seq<Entry>)
    requires tr.Transfer? && |s.sessions| == 3 && s.holder == map[] && s.sessions[0].Finished()
    requires DebitFirst(rows, tr.from, credit) && Less(credit, tr.from) && credit != tr.from && credit in s.accounts
    requires s.sessions[1].plan == ReversePlan(rows) && s.sessions[2] == Begun(Again(tr))
    requires FirstLeg(s, s', 1, tr.from, 3)
    requires s'.systemAccount == s.systemAccount && credit == Resolve(s.accounts, s.systemAccount, tr.to)
    ensures Deadlocked(Step(Step(s', 2, false), 2, false))
  {
    PlanOfTwo(rows);
    var s4 := Step(s', 2, false);
    assert s4 == Begin(s', 2) && s4.sessions[2].plan == TransferPlan(tr.from, credit, tr.amount);
    var s5 := Step(s4, 2, false);
    assert s5 == Issue(s4, 2);
    assert s5.holder == map[tr.from := 1, credit := 2];
    assert !s5.sessions[1].Finished() && Blocked(s5, 1) && Blocked(s5, 2) && s5.sessions[0] == s.sessions[0];
  }

  /** The reversal reads and posts its first entry; the second transfer begins and takes its first lock. */
  function Meeting(): seq<Tick> {
    ([Tick(1, false)] + Turns(1, 3)) + ([Tick(2, false)] + ([Tick(2, false)] + []))
  }

  lemma MeetingRuns(s: System)
    ensures Execute(s, Meeting()) == Step(Step(Execute(Step(s, 1, false), Turns(1, 3)), 2, false), 2, false)
  {
    ExecuteConcat(s, [Tick(1, false)] + Turns(1, 3), [Tick(2, false)] + ([Tick(2, false)] + []));
    ExecuteOne(s, Tick(1, false), Turns(1, 3));
    var s' := Execute(Step(s, 1, false), Turns(1, 3));
    ExecuteOne(s', Tick(2, false), [Tick(2, false)] + []);
    ExecuteOne(Step(s', 2, false), Tick(2, false), []);
  }

  lemma AfterFirst(s1: System, db: Database, tr: Op, credit: AccountId)
    requires tr.Transfer? && FirstDone(s1, db, tr, credit) && Less(credit, tr.from) && credit != tr.from
    ensures Deadlocked(Execute(s1, Meeting()))
  {
    EntriesNamed(db.entries, tr.id, tr.id);
    ReversalOpens(s1, db, 1, tr.id);
    var s2 := Step(s1, 1, false);
    FirstLegRuns(s2, 1, Reverse(tr.id), db.entries);
    ExecuteShape(s2, Turns(1, 3));
    Meet(s2, Execute(s2, Turns(1, 3)), tr, credit, db.entries);
    MeetingRuns(s1);
  }

  lemma DescendingDeadlocks(systemAccount: AccountId, opening: map<AccountId, Account>, tr: Op)
    returns (ticks: seq<Tick>)
    requires Descending(opening, systemAccount, tr)
    ensures Deadlocked(Execute(WithReversal(systemAccount, opening, tr, [Again(tr)]).Begins(), ticks))
  {
    var s0 := WithReversal(systemAccount, opening, tr, [Again(tr)]).Begins();
    var first := FirstRuns(s0, tr);
    AfterFirst(Execute(s0, first), Apply(Database(opening, [], []), systemAccount, tr), tr,
               Resolve(opening, systemAccount, tr.to));
    ExecuteConcat(s0, first, Meeting());
    ticks := first + Meeting();
  }

  // ---------- Exactly when ----------

  /** Any transfers under other ids. */
  predicate Companions(others: seq<Op>, t: TxId) {
    forall i :: 0 <= i < |others| ==> others[i].Transfer? && others[i].id != t
  }

  lemma AscendingOrdered(systemAccount: AccountId, opening: map<AccountId, Account>, tr: Op, others: seq<Op>)
    requires tr.Transfer? && Companions(others, tr.id) && !Descending(opening, systemAccount, tr)
    ensures Ordered(WithReversal(systemAccount, opening, tr, others))
  {
    var w := WithReversal(systemAccount, opening, tr, others);
    Trichotomy(tr.from, Resolve(opening, systemAccount, tr.to));
    assert |ReversalId(tr.id)| > |tr.id|;
    forall j | w.Writes(j, tr.id) ensures j == 0 && Ascending(w, w.ops[j]) {
    }
  }

  predicate DeadlockIn(w: Setting, schedule: seq<Tick>) {
    Deadlocked(Execute(w.Begins(), schedule))
  }

  lemma OrderedNever(w: Setting, schedule: seq<Tick>)
    requires Ordered(w)
    ensures !DeadlockIn(w, schedule)
  {
    ReachableSound(w, schedule);
    var s := Execute(w.Begins(), schedule);
    if !AllFinished(s) {
      var i := SomeoneCanStep(w, s);
    }
  }

  /**
   A transfer and its reversal, among any other transfers, can come to a deadlock
   if and only if the transfer is accepted and its debit account is the larger id.
   */
  lemma DeadlocksExactlyDescending(systemAccount: AccountId, opening: map<AccountId, Account>, tr: Op)
    requires tr.Transfer?
    ensures (exists others, schedule ::
               Companions(others, tr.id) && DeadlockIn(WithReversal(systemAccount, opening, tr, others), schedule))
            <==> Descending(opening, systemAccount, tr)
  {
    if Descending(opening, systemAccount, tr) {
      var ticks := DescendingDeadlocks(systemAccount, opening, tr);
      assert Companions([Again(tr)], tr.id) && DeadlockIn(WithReversal(systemAccount, opening, tr, [Again(tr)]), ticks);
    } else {
      forall others, schedule | Companions(others, tr.id)
        ensures !DeadlockIn(WithReversal(systemAccount, opening, tr, others), schedule)
      {
        AscendingOrdered(systemAccount, opening, tr, others);
        OrderedNever(WithReversal(systemAccount, opening, tr, others), schedule);
      }
    }
  }
}
