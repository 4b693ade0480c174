/**
 What one session does when the others pause: it runs to its commit, as long as
 nobody else holds a lock.
 */
module LedgerAlone {
  import opened AccountOrder
  import opened Ledger
  import opened LedgerRuns
  import opened LedgerStatements
  import opened LedgerConcurrency
  import opened LedgerLocking

  // ---------- From the first statement to the commit ----------

  function Turns(i: nat, n: nat): seq<Tick> {
    if n == 0 then [] else Turns(i, n - 1) + [Tick(i, false)]
  }

  lemma TurnsSnoc(s: System, i: nat, n: nat)
    ensures Execute(s, Turns(i, n + 1)) == Step(Execute(s, Turns(i, n)), i, false)
  {
    assert Turns(i, n + 1)[..n] == Turns(i, n) by {
      TurnsLength(i, n);
    }
    TurnsLength(i, n);
  }

  lemma {:induction false} TurnsLength(i: nat, n: nat)
    ensures |Turns(i, n)| == n
  {
    if n > 0 {
      TurnsLength(i, n - 1);
    }
  }

  /** Nobody but `i` holds a lock. */
  predicate Alone(s: System, i: nat) {
    forall a :: a in s.holder ==> s.holder[a] == i
  }

  /** Session `i` of `s` after `n` statements of its plan, with nothing else changed but its locks and rows. */
  predicate HasIssued(s: System, s': System, i: nat, n: nat)
  {
    && i < |s.sessions| && n <= |s.sessions[i].plan|
    && Exec(s.accounts, WrittenId(s.sessions[i].op), s.sessions[i].plan[..n]).Ok?
    && (var l := Exec(s.accounts, WrittenId(s.sessions[i].op), s.sessions[i].plan[..n]).value;
        && s'.sessions == s.sessions[i := s.sessions[i].(next := n, local := l)]
        && s'.rows == s.rows + Tag(i, l.rows))
    && s'.accounts == s.accounts && s'.systemAccount == s.systemAccount && s'.commits == s.commits
    && Alone(s', i)
  }

  lemma IssuesOne(s: System, s': System, i: nat, n: nat)
    requires HasIssued(s, s', i, n) && n < |s.sessions[i].plan| && s.sessions[i].stage.Running?
    requires Exec(s.accounts, WrittenId(s.sessions[i].op), s.sessions[i].plan[..n + 1]).Ok?
    ensures HasIssued(s, Step(s', i, false), i, n + 1)
  {
    var x := s.sessions[i];
    var id := WrittenId(x.op);
    ExecNext(s.accounts, id, x.plan, n);
    var l, l' := Exec(s.accounts, id, x.plan[..n]).value, Exec(s.accounts, id, x.plan[..n + 1]).value;
    var s'' := Step(s', i, false);
    assert s'.sessions[i] == x.(next := n, local := l);
    assert !Blocked(s', i);
    assert s'' == Issue(s', i);
    match x.plan[n]
    case Lock(_) =>
    case Insert(_) =>
      TagGrows(i, l.rows, l'.rows[|l'.rows| - 1]);
    case Update(_) =>
  }

  lemma {:induction false} Issues(s: System, i: nat, n: nat)
    requires i < |s.sessions| && n <= |s.sessions[i].plan| && s.sessions[i].stage.Running?
    requires s.sessions[i].next == 0 && s.sessions[i].local == NOTHING_YET && Alone(s, i)
    requires Exec(s.accounts, WrittenId(s.sessions[i].op), s.sessions[i].plan[..n]).Ok?
    ensures HasIssued(s, Execute(s, Turns(i, n)), i, n)
  {
    var x := s.sessions[i];
    if n == 0 {
      assert x.plan[..0] == [];
      assert s.sessions[i := x] == s.sessions;
      assert s.rows + Tag(i, []) == s.rows;
    } else {
      assert x.plan[..n][..n - 1] == x.plan[..n - 1];
      ExecPrefix(s.accounts, WrittenId(x.op), x.plan[..n], n - 1);
      Issues(s, i, n - 1);
      IssuesOne(s, Execute(s, Turns(i, n - 1)), i, n - 1);
      TurnsSnoc(s, i, n - 1);
    }
  }

  /** What a session that runs on its own from its first statement to its commit leaves behind. */
  predicate HasCommitted(s: System, s': System, i: nat, l: Local)
  {
    && i < |s.sessions| == |s'.sessions| && s'.sessions[i].stage.Committed?
    && (forall j :: 0 <= j < |s.sessions| && j != i ==> s'.sessions[j] == s.sessions[j])
    && s'.accounts == s.accounts + l.writes && s'.rows == s.rows + Tag(i, l.rows)
    && s'.commits == s.commits + [i] && s'.systemAccount == s.systemAccount && s'.holder == map[]
  }

  lemma Completes(s: System, i: nat)
    requires i < |s.sessions| && s.sessions[i].stage.Running? && s.sessions[i].next == 0
             && s.sessions[i].local == NOTHING_YET
    requires s.holder == map[] && Exec(s.accounts, WrittenId(s.sessions[i].op), s.sessions[i].plan).Ok?
    ensures HasCommitted(s, Execute(s, Turns(i, |s.sessions[i].plan| + 1)), i,
                         Exec(s.accounts, WrittenId(s.sessions[i].op), s.sessions[i].plan).value)
  {
    var x := s.sessions[i];
    var n := |x.plan|;
    assert x.plan[..n] == x.plan;
    Issues(s, i, n);
    TurnsSnoc(s, i, n);
    CommitsLast(s, Execute(s, Turns(i, n)), i);
  }

  lemma CommitsLast(s: System, s': System, i: nat)
    requires i < |s.sessions| && s.sessions[i].stage.Running? && HasIssued(s, s', i, |s.sessions[i].plan|)
    requires Exec(s.accounts, WrittenId(s.sessions[i].op), s.sessions[i].plan).Ok?
    ensures HasCommitted(s, Step(s', i, false), i,
                         Exec(s.accounts, WrittenId(s.sessions[i].op), s.sessions[i].plan).value)
  {
    var plan := s.sessions[i].plan;
    assert plan[..|plan|] == plan;
    assert s'.sessions[i].Committing();
    var s'' := Step(s', i, false);
    assert s'' == Commit(s', i);
    assert s''.holder == map[] by {
      assert forall a :: a !in s''.holder;
    }
  }

  // ---------- From the beginning ----------

  /** Nobody holds a lock, and all rows are committed: `db` is the whole state. */
  ghost predicate Still(s: System, db: Database) {
    && s.holder == map[] && s.accounts == db.accounts && Bare(s.rows) == db.entries && AllCommitted(s, s.rows)
    && AccountsKnown(db.accounts, db.entries)
    && forall j :: 0 <= j < |s.sessions| && s.sessions[j].stage.Committed? ==> Written(db, WrittenId(s.sessions[j].op))
  }

  predicate Written(db: Database, t: TxId) {
    EntriesOf(db.entries, t) != []
  }

  lemma ReadsAll(s: System, db: Database)
    requires Still(s, db)
    ensures CommittedRows(s, s.rows) == db.entries
  {
    AllOrNone(s, s.rows);
  }

  /** Session `x` has begun: it goes on with the statements `plan`. */
  function Opened(x: Session, plan: seq<Statement>): Session {
    x.(stage := Running, plan := plan, next := 0, local := NOTHING_YET)
  }

  /** A session that begins in a still state, and whose operation is accepted, has a plan that does it. */
  lemma Opens(s: System, db: Database, i: nat) returns (plan: seq<Statement>)
    requires Still(s, db) && i < |s.sessions| && s.sessions[i].stage.Beginning?
    requires Enabled(db, s.systemAccount, s.sessions[i].op)
    ensures Step(s, i, false) == Put(s, i, Opened(s.sessions[i], plan))
    ensures Exec(s.accounts, WrittenId(s.sessions[i].op), plan).Ok?
    ensures IsPosted(db, Exec(s.accounts, WrittenId(s.sessions[i].op), plan).value,
                     Apply(db, s.systemAccount, s.sessions[i].op))
  {
    var x := s.sessions[i];
    assert Step(s, i, false) == Begin(s, i);
    match x.op
    case Transfer(from, to, id, amount) =>
      var credit := Resolve(s.accounts, s.systemAccount, to);
      plan := TransferPlan(from, credit, amount);
      assert plan[..6] == plan;
      UpdatesDone(s.accounts, id, from, credit, amount);
      TransferIsPosted(db, s.systemAccount, x.op);
    case Reverse(id) =>
      ReadsAll(s, db);
      plan := ReversePlan(EntriesOf(db.entries, id));
      ReversalIsNegated(db, ReversalId(id), EntriesOf(db.entries, id));
  }

  lemma ReversalOpens(s: System, db: Database, k: nat, t: TxId)
    requires Still(s, db) && k < |s.sessions| && s.sessions[k] == Begun(Reverse(t)) && Written(db, t)
    ensures Step(s, k, false) == Put(s, k, Opened(s.sessions[k], ReversePlan(EntriesOf(db.entries, t))))
    ensures Still(Step(s, k, false), db)
  {
    ReadsAll(s, db);
    assert Step(s, k, false) == Begin(s, k);
  }

  lemma {:induction false} NegatedLength(db: Database, id: TxId, entries: seq<Entry>)
    requires AccountsKnown(db.accounts, entries)
    ensures |Negated(db, id, entries).entries| == |db.entries| + |entries|
  {
    if entries != [] {
      var n := |entries| - 1;
      NegatedLast(db, id, entries, entries[n]);
      NegatedLength(db, id, entries[..n]);
    }
  }

  lemma ApplyWrites(db: Database, system: AccountId, op: Op)
    requires Enabled(db, system, op)
    ensures |Apply(db, system, op).entries| > |db.entries|
  {
    if op.Reverse? {
      NegatedLength(db, ReversalId(op.id), EntriesOf(db.entries, op.id));
    }
  }

  /** After the commit the state is still again. */
  lemma StillAfter(s: System, s1: System, s': System, db: Database, after: Database, i: nat, l: Local)
    requires Still(s, db) && i < |s.sessions| && !s.sessions[i].stage.Committed?
    requires |s1.sessions| == |s.sessions| && s1 == Put(s, i, s1.sessions[i]) && s1.sessions[i].op == s.sessions[i].op
    requires HasCommitted(s1, s', i, l)
    requires s'.sessions[i].op == s.sessions[i].op
    requires IsPosted(db, l, after) && l.rows != [] && Confined(s.accounts, WrittenId(s.sessions[i].op), l)
    ensures Still(s', after)
  {
    assert Bare(s'.rows) == Bare(s.rows) + l.rows;
    forall j | 0 <= j < |s'.sessions| && s'.sessions[j].stage.Committed?
      ensures Written(after, WrittenId(s'.sessions[j].op))
    {
      var t := WrittenId(s'.sessions[j].op);
      EntriesOfConcat(db.entries, l.rows, t);
      if j == i {
        EntriesNamed(l.rows, t, t);
      } else {
        assert Written(db, t);
      }
    }
  }

  /** Only session `i` has moved, from its beginning to its commit. */
  predicate Ran(s: System, s': System, i: nat) {
    && i < |s.sessions| == |s'.sessions| && s'.commits == s.commits + [i] && s'.systemAccount == s.systemAccount
    && s'.accounts.Keys == s.accounts.Keys && s'.sessions[i].stage.Committed? && s'.sessions[i].op == s.sessions[i].op
    && forall j :: 0 <= j < |s.sessions| && j != i ==> s'.sessions[j] == s.sessions[j]
  }

  /** An accepted operation that begins in a still state and is left alone does what it does serially. */
  lemma RunsAlone(s: System, db: Database, i: nat) returns (ticks: seq<Tick>)
    requires Still(s, db) && i < |s.sessions| && s.sessions[i].stage.Beginning?
    requires Enabled(db, s.systemAccount, s.sessions[i].op)
    ensures Ran(s, Execute(s, ticks), i) && Still(Execute(s, ticks), Apply(db, s.systemAccount, s.sessions[i].op))
  {
    var x, s1 := s.sessions[i], Step(s, i, false);
    var plan := Opens(s, db, i);
    var l := Exec(s.accounts, WrittenId(x.op), plan).value;
    Completes(s1, i);
    ticks := [Tick(i, false)] + Turns(i, |plan| + 1);
    ExecuteOne(s, Tick(i, false), Turns(i, |plan| + 1));
    ExecuteShape(s, ticks);
    ApplyWrites(db, s.systemAccount, x.op);
    ExecConfined(s.accounts, WrittenId(x.op), plan);
    StillAfter(s, s1, Execute(s, ticks), db, Apply(db, s.systemAccount, x.op), i, l);
  }

  // ---------- Schedules ----------

  lemma ExecuteOne(s: System, t: Tick, rest: seq<Tick>)
    ensures Execute(s, [t] + rest) == Execute(Step(s, t.session, t.fault), rest)
  {
    ExecuteConcat(s, [t], rest);
    assert [t][..0] == [] && Execute(s, [t]) == Step(s, t.session, t.fault);
  }
}
