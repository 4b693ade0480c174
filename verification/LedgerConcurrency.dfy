/**
 Concurrent transfers and reversals. Each session runs its operation one
 statement at a time inside its own transaction; a row lock taken by a SELECT
 ... FOR UPDATE is kept until the session commits or rolls back. A schedule is
 any list of sessions to step, each step possibly hit by a database fault.
 */
module LedgerConcurrency {
  import opened AccountOrder
  import opened Ledger
  import opened LedgerRuns
  import opened LedgerStatements

  datatype Stage = Beginning | Running | Committed | RolledBack(why: Cause)

  /** `next` is the place in `plan` of the statement the session is about to issue. */
  datatype Session = Session(op: Op, stage: Stage, plan: seq<Statement>, next: nat, local: Local) {
    predicate Finished() {
      stage.Committed? || stage.RolledBack?
    }

    predicate Committing() {
      stage.Running? && next >= |plan|
    }

    /** The row locks this session holds. */
    function Held(): set<AccountId> {
      if stage.Running? then local.held else {}
    }

    /** The rows inserted so far by an unfinished session. */
    function Inserted(): seq<Entry> {
      if stage.Running? then local.rows else []
    }
  }

  // ---------- The system ----------

  /** A row of `ledger_entries` and the session that inserted it. */
  datatype Row = Row(owner: nat, entry: Entry)

  /**
   `accounts` is the committed table, `rows` the ledger rows in insertion order
   without those of rolled-back sessions, and `commits` the order of commits.
   */
  datatype System = System(
    systemAccount: AccountId,
    accounts: map<AccountId, Account>,
    sessions: seq<Session>,
    holder: map<AccountId, nat>,
    rows: seq<Row>,
    commits: seq<nat>)

  predicate WantsLock(x: Session) {
    x.stage.Running? && x.next < |x.plan| && x.plan[x.next].Lock?
  }

  function Wanted(x: Session): AccountId
    requires WantsLock(x)
  {
    x.plan[x.next].account
  }

  predicate Blocked(s: System, i: nat)
    requires i < |s.sessions|
  {
    var x := s.sessions[i];
    WantsLock(x) && Wanted(x) in s.holder && s.holder[Wanted(x)] != i
  }

  function Put(s: System, i: nat, x: Session): System
    requires i < |s.sessions|
  {
    s.(sessions := s.sessions[i := x])
  }

  function Released(holder: map<AccountId, nat>, i: nat): map<AccountId, nat> {
    map a | a in holder && holder[a] != i :: holder[a]
  }

  function Without(rows: seq<Row>, i: nat): seq<Row> {
    if rows == [] then []
    else
      var before := Without(rows[..|rows| - 1], i);
      if rows[|rows| - 1].owner == i then before else before + [rows[|rows| - 1]]
  }

  function Rollback(s: System, i: nat, why: Cause): System
    requires i < |s.sessions|
  {
    Put(s, i, s.sessions[i].(stage := RolledBack(why)))
    .(holder := Released(s.holder, i), rows := Without(s.rows, i))
  }

  /** The rows that a reader sees: those of committed sessions. */
  function CommittedRows(s: System, rows: seq<Row>): seq<Entry> {
    if rows == [] then []
    else
      var before := CommittedRows(s, rows[..|rows| - 1]);
      var last := rows[|rows| - 1];
      if last.owner < |s.sessions| && s.sessions[last.owner].stage.Committed? then before + [last.entry] else before
  }

  /** The first statement: look the destination up, or read the entries to reverse. */
  function Begin(s: System, i: nat): System
    requires i < |s.sessions|
  {
    var x := s.sessions[i].(stage := Running, next := 0, local := NOTHING_YET);
    match x.op
    case Transfer(from, to, _, amount) =>
      Put(s, i, x.(plan := TransferPlan(from, Resolve(s.accounts, s.systemAccount, to), amount)))
    case Reverse(id) =>
      var found := EntriesOf(CommittedRows(s, s.rows), id);
      if found == [] then Rollback(s, i, NoEntries) else Put(s, i, x.(plan := ReversePlan(found)))
  }

  /** One more statement of session `i`: a new lock is entered in the lock table, a new row in the ledger. */
  function Issue(s: System, i: nat): System
    requires i < |s.sessions| && s.sessions[i].next < |s.sessions[i].plan|
  {
    var x := s.sessions[i];
    var statement := x.plan[x.next];
    match Do(s.accounts, WrittenId(x.op), x.local, statement)
    case Err(why) => Rollback(s, i, why)
    case Ok(local) =>
      var s' := Put(s, i, x.(next := x.next + 1, local := local));
      match statement
      case Lock(a) => s'.(holder := s.holder[a := i])
      case Insert(_) => s'.(rows := s.rows + [Row(i, local.rows[|local.rows| - 1])])
      case Update(_) => s'
  }

  function Commit(s: System, i: nat): System
    requires i < |s.sessions|
  {
    Put(s, i, s.sessions[i].(stage := Committed))
    .(accounts := s.accounts + s.sessions[i].local.writes,
      holder := Released(s.holder, i),
      commits := s.commits + [i])
  }

  /** The statement session `i` issues when it is neither finished nor waiting. */
  function Advance(s: System, i: nat): System
    requires i < |s.sessions|
  {
    var x := s.sessions[i];
    if x.stage.Beginning? then Begin(s, i)
    else if x.next < |x.plan| then Issue(s, i)
    else Commit(s, i)
  }

  /** A finished or waiting session stays where it is. */
  function Step(s: System, i: nat, fault: bool): System {
    if i >= |s.sessions| || s.sessions[i].Finished() then s
    else if fault then Rollback(s, i, Fault)
    else if Blocked(s, i) then s
    else Advance(s, i)
  }

  datatype Tick = Tick(session: nat, fault: bool)

  function Execute(s: System, schedule: seq<Tick>): System {
    if schedule == [] then s
    else
      var last := schedule[|schedule| - 1];
      Step(Execute(s, schedule[..|schedule| - 1]), last.session, last.fault)
  }

  lemma ExecuteSnoc(s: System, done: seq<Tick>, t: Tick)
    ensures Execute(s, done + [t]) == Step(Execute(s, done), t.session, t.fault)
  {
    assert (done + [t])[..|done|] == done;
  }

  lemma {:induction false} ExecuteConcat(s: System, xs: seq<Tick>, ys: seq<Tick>)
    ensures Execute(s, xs + ys) == Execute(Execute(s, xs), ys)
  {
    if ys == [] {
      assert xs + ys == xs;
    } else {
      var n := |ys| - 1;
      var t := ys[n];
      ExecuteConcat(s, xs, ys[..n]);
      assert ys[..n] + [t] == ys && (xs + ys[..n]) + [t] == xs + ys;
      ExecuteSnoc(s, xs + ys[..n], t);
      ExecuteSnoc(Execute(s, xs), ys[..n], t);
    }
  }

  function Begun(op: Op): Session {
    Session(op, Beginning, [], 0, NOTHING_YET)
  }

  /** The operations that run concurrently, and what they start from. */
  datatype Setting = Setting(system: AccountId, opening: map<AccountId, Account>, ops: seq<Op>) {

    /** A transfer that is accepted, or a reversal of an id that can be written. */
    predicate CanWrite(op: Op)
      decreases |WrittenId(op)|
    {
      match op
      case Transfer(_, _, _, _) => Enabled(Database(opening, [], []), system, op)
      case Reverse(id) => exists j :: 0 <= j < |ops| && WrittenId(ops[j]) == id && CanWrite(ops[j])
    }

    predicate Writes(j: int, t: TxId) {
      0 <= j < |ops| && WrittenId(ops[j]) == t && CanWrite(ops[j])
    }

    ghost predicate WrittenOnce(t: TxId) {
      forall i, j :: Writes(i, t) && Writes(j, t) ==> i == j
    }

    /** No id that is reversed can be written by two of the operations. */
    ghost predicate SingleWriters() {
      forall k :: 0 <= k < |ops| && ops[k].Reverse? ==> WrittenOnce(ops[k].id)
    }

    function Begins(): System {
      System(system, opening, seq(|ops|, i requires 0 <= i < |ops| => Begun(ops[i])), map[], [], [])
    }
  }

  /** `s` is a state of these operations. */
  predicate Of(w: Setting, s: System) {
    && s.systemAccount == w.system && s.accounts.Keys == w.opening.Keys && |s.sessions| == |w.ops|
    && forall i :: 0 <= i < |w.ops| ==> s.sessions[i].op == w.ops[i]
  }

  // ---------- The serial execution it is compared with ----------

  /** The committed operations in commit order. */
  function Serial(s: System): seq<Op>
    requires forall i :: i in s.commits ==> i < |s.sessions|
  {
    seq(|s.commits|, k requires 0 <= k < |s.commits| => assert s.commits[k] in s.commits; s.sessions[s.commits[k]].op)
  }

  function EntriesOn(entries: seq<Entry>, a: AccountId): seq<Entry> {
    if entries == [] then []
    else
      var before := EntriesOn(entries[..|entries| - 1], a);
      if entries[|entries| - 1].account == a then before + [entries[|entries| - 1]] else before
  }

  function RowsOn(rows: seq<Row>, a: AccountId): seq<Row> {
    if rows == [] then []
    else
      var before := RowsOn(rows[..|rows| - 1], a);
      if rows[|rows| - 1].entry.account == a then before + [rows[|rows| - 1]] else before
  }
}
