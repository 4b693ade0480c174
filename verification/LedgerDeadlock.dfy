/**
 Concurrent operations whose locks are taken in increasing account-id order
 cannot deadlock: whoever waits for the largest id is waiting for someone who
 can run. Transfers always lock in that order; a reversal locks in the order of
 the entries it reads.
 */
module LedgerDeadlock {
  import opened AccountOrder
  import opened Ledger
  import opened LedgerRuns
  import opened LedgerStatements
  import opened LedgerConcurrency
  import opened LedgerLocking
  import opened LedgerSerializability

  // ---------- Lock order ----------

  /** Whatever is reversed was written, if at all, by a transfer whose debit account comes first. */
  ghost predicate LockOrdered(w: Setting) {
    forall k, j :: 0 <= k < |w.ops| && w.ops[k].Reverse? && w.Writes(j, w.ops[k].id) ==> Ascending(w, w.ops[j])
  }

  predicate Ascending(w: Setting, op: Op) {
    op.Transfer? && Less(op.from, Resolve(w.opening, w.system, op.to))
  }

  /**
   No reversed id can be written twice, and all of them are written in lock order; other
   transfers may go either way.
   */
  ghost predicate Ordered(w: Setting) {
    w.SingleWriters() && LockOrdered(w)
  }

  /** Transfers alone need no condition, whatever their ids and directions. */
  lemma TransfersOrdered(w: Setting)
    requires forall i :: 0 <= i < |w.ops| ==> w.ops[i].Transfer?
    ensures Ordered(w)
  {
    TransfersOnly(w);
  }

  /** The debit row, then the credit row. */
  predicate DebitFirst(rows: seq<Entry>, debit: AccountId, credit: AccountId) {
    |rows| == 2 && rows[0].account == debit && rows[1].account == credit
  }

  predicate PairOk(w: Setting, x: Session) {
    x.op.Transfer? && x.stage.Committed? ==> DebitFirst(x.local.rows, x.op.from, Resolve(w.opening, w.system, x.op.to))
  }

  /** What all reachable states of lock-ordered operations have in common. */
  ghost predicate Sound(w: Setting, s: System) {
    && (exists serial :: SerialInv(w, s, serial)) && Ordered(w)
    && forall i :: 0 <= i < |s.sessions| ==> PairOk(w, s.sessions[i])
  }

  /** At most six statements, with the locks in increasing order. */
  predicate InOrder(plan: seq<Statement>) {
    && |plan| <= 6
    && (forall j, k :: 0 <= j < k < |plan| && plan[j].Lock? && plan[k].Lock?
          ==> plan[j].account == plan[k].account || Less(plan[j].account, plan[k].account))
  }

  lemma TransferInOrder(from: AccountId, credit: AccountId, amount: int)
    ensures InOrder(TransferPlan(from, credit, amount))
  {
    Trichotomy(from, credit);
  }

  function LegOf(e: Entry): Leg {
    Leg(e.account, -e.amount, Opposite(e.entryType))
  }

  lemma PlanOfTwo(rows: seq<Entry>)
    requires |rows| == 2
    ensures ReversePlan(rows) == [Lock(rows[0].account), Insert(LegOf(rows[0])), Update(LegOf(rows[0])),
                                  Lock(rows[1].account), Insert(LegOf(rows[1])), Update(LegOf(rows[1]))]
  {
    assert rows[..1] == [rows[0]] && [rows[0]][..0] == [];
    assert ReversePlan([rows[0]]) == [] + [Lock(rows[0].account), Insert(LegOf(rows[0])), Update(LegOf(rows[0]))];
  }

  lemma {:induction false} TwoInOrder(rows: seq<Entry>)
    requires |rows| == 2 && Less(rows[0].account, rows[1].account)
    ensures InOrder(ReversePlan(rows))
  {
    PlanOfTwo(rows);
  }

  /** A running session takes its locks in order. */
  lemma RunsInOrder(w: Setting, s: System, i: nat)
    requires Sound(w, s) && i < |s.sessions| && s.sessions[i].stage.Running?
    ensures InOrder(s.sessions[i].plan)
  {
    var serial :| SerialInv(w, s, serial);
    var x := s.sessions[i];
    assert PlanOk(s.systemAccount, s.accounts, x) && ReadsOk(w, serial, x);
    match x.op
    case Transfer(from, to, _, amount) =>
      TransferInOrder(from, Resolve(s.accounts, s.systemAccount, to), amount);
    case Reverse(id) =>
      var j := ReadFrom(w, s, serial, i);
      TwoInOrder(s.sessions[j].local.rows);
  }

  /** A running reversal negates the two rows of a committed transfer that ascends. */
  lemma ReadFrom(w: Setting, s: System, serial: Database, i: nat) returns (j: nat)
    requires Sound(w, s) && SerialInv(w, s, serial)
    requires i < |s.sessions| && s.sessions[i].stage.Running? && s.sessions[i].op.Reverse?
    ensures j < |s.sessions| && s.sessions[i].plan == ReversePlan(s.sessions[j].local.rows)
    ensures |s.sessions[j].local.rows| == 2
    ensures Less(s.sessions[j].local.rows[0].account, s.sessions[j].local.rows[1].account)
  {
    var id := s.sessions[i].op.id;
    assert ByIdOk(s, serial, id) && ReadsOk(w, serial, s.sessions[i]);
    j :| Wrote(s, j, id);
    assert ReadsOk(w, serial, s.sessions[j]) && PairOk(w, s.sessions[j]);
    assert w.ops[i].Reverse? && w.Writes(j, w.ops[i].id);
  }

  /** `i` waits for a lock that `j` holds. */
  predicate WaitsFor(s: System, i: nat, j: nat) {
    i < |s.sessions| && Blocked(s, i) && s.holder[Wanted(s.sessions[i])] == j
  }

  /** Whatever is held was locked by an earlier statement. */
  lemma {:induction false} HeldWasLocked(accounts: map<AccountId, Account>, id: TxId, plan: seq<Statement>,
                                         a: AccountId) returns (k: nat)
    requires Exec(accounts, id, plan).Ok? && a in Exec(accounts, id, plan).value.held
    ensures k < |plan| && plan[k] == Lock(a)
  {
    var n := |plan| - 1;
    if plan[n] == Lock(a) {
      k := n;
    } else {
      k := HeldWasLocked(accounts, id, plan[..n], a);
    }
  }

  /** What a session that is about to take a lock holds already. */
  lemma HeldWhenWanting(w: Setting, s: System, j: nat, a: AccountId)
    requires Sound(w, s) && j < |s.sessions| && WantsLock(s.sessions[j]) && a in s.sessions[j].Held()
    ensures a == Wanted(s.sessions[j]) || Less(a, Wanted(s.sessions[j]))
  {
    var serial :| SerialInv(w, s, serial);
    var y := s.sessions[j];
    assert SessionOk(s.accounts, y);
    RunsInOrder(w, s, j);
    var k := HeldWasLocked(s.accounts, WrittenId(y.op), y.plan[..y.next], a);
    assert y.plan[k] == Lock(a);
  }

  /** Along an edge of the waits-for relation the awaited account id grows. */
  lemma WaitingIncreases(w: Setting, s: System, i: nat, j: nat)
    requires Sound(w, s) && WaitsFor(s, i, j)
    ensures j < |s.sessions| && !s.sessions[j].Finished()
    ensures Blocked(s, j) ==> Less(Wanted(s.sessions[i]), Wanted(s.sessions[j]))
  {
    var serial :| SerialInv(w, s, serial);
    var key := Wanted(s.sessions[i]);
    assert key in s.sessions[j].Held();
    if Blocked(s, j) {
      HeldWhenWanting(w, s, j, key);
    }
  }

  ghost predicate WaitPath(s: System, path: seq<nat>) {
    |path| >= 2 && forall k :: 0 <= k < |path| - 1 ==> WaitsFor(s, path[k], path[k + 1])
  }

  lemma {:induction false} PathIncreases(w: Setting, s: System, path: seq<nat>)
    requires Sound(w, s) && WaitPath(s, path)
    ensures path[|path| - 1] < |s.sessions| && path[0] < |s.sessions| && Blocked(s, path[0])
    ensures Blocked(s, path[|path| - 1])
            ==> Less(Wanted(s.sessions[path[0]]), Wanted(s.sessions[path[|path| - 1]]))
  {
    var n := |path| - 1;
    assert WaitsFor(s, path[n - 1], path[n]) && WaitsFor(s, path[0], path[1]);
    WaitingIncreases(w, s, path[n - 1], path[n]);
    if n > 1 && Blocked(s, path[n]) {
      ShorterPath(s, path);
      PathIncreases(w, s, path[..n]);
      Transitive(Wanted(s.sessions[path[0]]), Wanted(s.sessions[path[n - 1]]), Wanted(s.sessions[path[n]]));
    }
  }

  lemma ShorterPath(s: System, path: seq<nat>)
    requires WaitPath(s, path) && |path| > 2
    ensures var n := |path| - 1;
            WaitPath(s, path[..n]) && path[..n][0] == path[0] && path[..n][n - 1] == path[n - 1]
  {
    var n := |path| - 1;
    forall k | 0 <= k < n - 1 ensures WaitsFor(s, path[..n][k], path[..n][k + 1]) {
      assert WaitsFor(s, path[k], path[k + 1]);
    }
  }

  /** The waits-for relation has no cycle. */
  lemma NoWaitCycle(w: Setting, s: System, path: seq<nat>)
    requires Sound(w, s) && WaitPath(s, path)
    ensures path[0] != path[|path| - 1]
  {
    PathIncreases(w, s, path);
    assert WaitsFor(s, path[0], path[1]);
    if path[0] == path[|path| - 1] {
      Trichotomy(Wanted(s.sessions[path[0]]), Wanted(s.sessions[path[0]]));
    }
  }

  /** Among the first `n` sessions, a blocked one whose awaited id none of the others exceeds. */
  lemma {:induction false} LargestWait(s: System, n: nat) returns (m: nat)
    requires n <= |s.sessions| && exists i :: 0 <= i < n && Blocked(s, i)
    ensures m < n && Blocked(s, m)
    ensures forall i :: 0 <= i < n && Blocked(s, i) ==> !Less(Wanted(s.sessions[m]), Wanted(s.sessions[i]))
  {
    var last := n - 1;
    if !exists i :: 0 <= i < last && Blocked(s, i) {
      m := last;
      Trichotomy(Wanted(s.sessions[m]), Wanted(s.sessions[m]));
    } else {
      m := LargestWait(s, last);
      if Blocked(s, last) && Less(Wanted(s.sessions[m]), Wanted(s.sessions[last])) {
        var former := m;
        m := last;
        forall i | 0 <= i < n && Blocked(s, i) ensures !Less(Wanted(s.sessions[m]), Wanted(s.sessions[i])) {
          Trichotomy(Wanted(s.sessions[m]), Wanted(s.sessions[m]));
          if Less(Wanted(s.sessions[m]), Wanted(s.sessions[i])) {
            Transitive(Wanted(s.sessions[former]), Wanted(s.sessions[m]), Wanted(s.sessions[i]));
          }
        }
      }
    }
  }

  predicate AllFinished(s: System) {
    forall i :: 0 <= i < |s.sessions| ==> s.sessions[i].Finished()
  }

  /** While some session is unfinished, some unfinished session is not waiting. */
  lemma SomeoneCanStep(w: Setting, s: System) returns (i: nat)
    requires Sound(w, s) && !AllFinished(s)
    ensures i < |s.sessions| && !s.sessions[i].Finished() && !Blocked(s, i)
  {
    i :| i < |s.sessions| && !s.sessions[i].Finished();
    if Blocked(s, i) {
      var m := LargestWait(s, |s.sessions|);
      i := s.holder[Wanted(s.sessions[m])];
      WaitingIncreases(w, s, m, i);
    }
  }

  // ---------- Every step keeps the lock order ----------

  /** A transfer that commits has inserted its two rows. */
  lemma CommittingPair(w: Setting, s: System, serial: Database, i: nat)
    requires SerialInv(w, s, serial) && i < |s.sessions| && s.sessions[i].Committing()
    ensures PairOk(w, s.sessions[i].(stage := Committed))
  {
    var x := s.sessions[i];
    assert SessionOk(s.accounts, x) && PlanOk(s.systemAccount, s.accounts, x);
    if x.op.Transfer? {
      var credit := Resolve(s.accounts, s.systemAccount, x.op.to);
      var plan := TransferPlan(x.op.from, credit, x.op.amount);
      assert x.plan == plan && plan[..6] == plan;
      TransferSides(s.accounts, x.op.id, x.op.from, credit, x.op.amount);
      UpdatesDone(s.accounts, x.op.id, x.op.from, credit, x.op.amount);
      ResolveStays(s.accounts, w.opening, w.system, x.op.to);
    }
  }

  lemma StepKeepsPair(w: Setting, s: System, serial: Database, t: Tick, j: nat)
    requires SerialInv(w, s, serial) && j < |s.sessions| && PairOk(w, s.sessions[j])
    ensures j < |Step(s, t.session, t.fault).sessions|
    ensures PairOk(w, Step(s, t.session, t.fault).sessions[j])
  {
    StepShape(s, t);
    if j == t.session && Commits(s, t) {
      CommittingPair(w, s, serial, j);
    } else if j == t.session {
      OwnSession(s, t);
      if s.sessions[j].stage.Committed? {
        CommittedStays(s, t, j);
      }
    }
  }

  lemma StepStaysSound(w: Setting, s: System, i: nat, fault: bool)
    requires Sound(w, s)
    ensures Sound(w, Step(s, i, fault))
  {
    var serial :| SerialInv(w, s, serial);
    var t, s' := Tick(i, fault), Step(s, i, fault);
    StepKeepsSerial(w, s, serial, t);
    StepShape(s, t);
    forall j | 0 <= j < |s'.sessions| ensures PairOk(w, s'.sessions[j]) {
      StepKeepsPair(w, s, serial, t, j);
    }
  }

  lemma {:induction false} StaysSound(w: Setting, s: System, schedule: seq<Tick>)
    requires Sound(w, s)
    ensures Sound(w, Execute(s, schedule))
  {
    if schedule != [] {
      var n := |schedule| - 1;
      StaysSound(w, s, schedule[..n]);
      StepStaysSound(w, Execute(s, schedule[..n]), schedule[n].session, schedule[n].fault);
    }
  }

  // ---------- Everyone finishes ----------

  /** An upper bound on the statements a session still has to issue. */
  function Remaining(x: Session): nat {
    match x.stage
    case Beginning => 8
    case Running => if x.next < |x.plan| then |x.plan| - x.next + 1 else 1
    case _ => 0
  }

  function TotalRemaining(sessions: seq<Session>): nat {
    if sessions == [] then 0
    else TotalRemaining(sessions[..|sessions| - 1]) + Remaining(sessions[|sessions| - 1])
  }

  lemma {:induction false} ReplaceOne(sessions: seq<Session>, i: nat, x: Session)
    requires i < |sessions|
    ensures TotalRemaining(sessions[i := x]) == TotalRemaining(sessions) - Remaining(sessions[i]) + Remaining(x)
  {
    var n := |sessions| - 1;
    if i < n {
      ReplaceOne(sessions[..n], i, x);
      assert sessions[i := x][..n] == sessions[..n][i := x];
    } else {
      assert sessions[i := x][..n] == sessions[..n];
    }
  }

  lemma StepsOne(w: Setting, s: System, i: nat, fault: bool)
    requires Sound(w, s) && i < |s.sessions| && !s.sessions[i].Finished()
    ensures var s' := Step(s, i, fault);
            && |s'.sessions| == |s.sessions| && s'.sessions == s.sessions[i := s'.sessions[i]]
            && if fault || !Blocked(s, i) then Remaining(s'.sessions[i]) < Remaining(s.sessions[i]) else s' == s
  {
    StepShape(s, Tick(i, fault));
    StepStaysSound(w, s, i, fault);
    if Step(s, i, fault).sessions[i].stage.Running? {
      RunsInOrder(w, Step(s, i, fault), i);
    }
    UsesUp(s, i, fault);
  }

  /** A step that has an effect leaves its session less to do, if a plan has at most six statements. */
  lemma UsesUp(s: System, i: nat, fault: bool)
    requires i < |s.sessions| && !s.sessions[i].Finished() && |Step(s, i, fault).sessions| == |s.sessions|
    requires var x := Step(s, i, fault).sessions[i]; x.stage.Running? ==> |x.plan| <= 6
    ensures var s' := Step(s, i, fault);
            if fault || !Blocked(s, i) then Remaining(s'.sessions[i]) < Remaining(s.sessions[i]) else s' == s
  {
  }

  lemma {:induction false} AllZero(sessions: seq<Session>, i: nat)
    requires i < |sessions| && TotalRemaining(sessions) == 0
    ensures sessions[i].Finished()
  {
    if i < |sessions| - 1 {
      AllZero(sessions[..|sessions| - 1], i);
    }
  }

  /** The steps of a schedule that change the state. */
  function Moves(s: System, schedule: seq<Tick>): nat {
    if schedule == [] then 0
    else
      var n := |schedule| - 1;
      var before := Execute(s, schedule[..n]);
      Moves(s, schedule[..n]) + if Step(before, schedule[n].session, schedule[n].fault) != before then 1 else 0
  }

  /** No schedule, however long, makes more than eight effective steps per session. */
  lemma {:induction false} BoundedMoves(w: Setting, s: System, schedule: seq<Tick>)
    requires Sound(w, s)
    ensures Moves(s, schedule) + TotalRemaining(Execute(s, schedule).sessions) <= TotalRemaining(s.sessions)
  {
    if schedule != [] {
      var n := |schedule| - 1;
      var before, t := Execute(s, schedule[..n]), schedule[n];
      BoundedMoves(w, s, schedule[..n]);
      StaysSound(w, s, schedule[..n]);
      if t.session < |before.sessions| && !before.sessions[t.session].Finished() {
        StepsOne(w, before, t.session, t.fault);
        ReplaceOne(before.sessions, t.session, Step(before, t.session, t.fault).sessions[t.session]);
      }
    }
  }

  predicate FaultFree(schedule: seq<Tick>) {
    forall t: Tick :: t in schedule ==> !t.fault
  }

  /** Continues the fault-free schedule `done` until every session has finished. */
  lemma {:induction false} CanFinish(w: Setting, s: System, done: seq<Tick>) returns (rest: seq<Tick>)
    requires Sound(w, Execute(s, done)) && FaultFree(done)
    ensures FaultFree(rest) && AllFinished(Execute(s, rest))
    decreases TotalRemaining(Execute(s, done).sessions)
  {
    var now := Execute(s, done);
    rest := done;
    if !AllFinished(now) {
      var i := SomeoneCanStep(w, now);
      StepsOne(w, now, i, false);
      ReplaceOne(now.sessions, i, Step(now, i, false).sessions[i]);
      StepStaysSound(w, now, i, false);
      ExecuteSnoc(s, done, Tick(i, false));
      rest := CanFinish(w, s, done + [Tick(i, false)]);
    }
  }

  lemma ReachableSound(w: Setting, schedule: seq<Tick>)
    requires Ordered(w)
    ensures Sound(w, Execute(w.Begins(), schedule)) && |Execute(w.Begins(), schedule).sessions| == |w.ops|
  {
    BeginsSerial(w);
    assert SerialInv(w, w.Begins(), Database(w.opening, [], []));
    StaysSound(w, w.Begins(), schedule);
    ExecuteShape(w.Begins(), schedule);
  }

  /**
   Deadlock freedom, for transfers and reversals of ascending transfers. In every
   reachable state the waits-for relation is acyclic, somebody unfinished can
   step, and there is a fault-free way to finish everyone.
   */
  lemma NoDeadlock(w: Setting, schedule: seq<Tick>)
    requires Ordered(w)
    ensures var s := Execute(w.Begins(), schedule);
            && (forall path :: WaitPath(s, path) ==> path[0] != path[|path| - 1])
            && (AllFinished(s) || exists i :: 0 <= i < |s.sessions| && !s.sessions[i].Finished() && !Blocked(s, i))
            && (exists rest :: FaultFree(rest) && AllFinished(Execute(s, rest)))
  {
    ReachableSound(w, schedule);
    var s := Execute(w.Begins(), schedule);
    forall path | WaitPath(s, path) ensures path[0] != path[|path| - 1] {
      NoWaitCycle(w, s, path);
    }
    if !AllFinished(s) {
      var i := SomeoneCanStep(w, s);
    }
    var rest := CanFinish(w, s, []);
  }

  lemma {:induction false} StartRemaining(w: Setting)
    ensures TotalRemaining(w.Begins().sessions) == 8 * |w.ops|
    decreases |w.ops|
  {
    if w.ops != [] {
      var n := |w.ops| - 1;
      var fewer := w.(ops := w.ops[..n]);
      StartRemaining(fewer);
      assert w.Begins().sessions[..n] == fewer.Begins().sessions;
    }
  }

  /** Whatever the schedule, its statements, waits and faults, at most eight steps per operation have any effect. */
  lemma EightStepsEach(w: Setting, schedule: seq<Tick>)
    requires Ordered(w)
    ensures Moves(w.Begins(), schedule) <= 8 * |w.ops|
  {
    ReachableSound(w, []);
    BoundedMoves(w, w.Begins(), schedule);
    StartRemaining(w);
  }

  // ---------- Fair schedules ----------

  /**
   A stretch of a schedule in which each of the first `n` sessions gets a turn, in any order
   and as often as it likes.
   */
  predicate Round(ticks: seq<Tick>, n: nat) {
    forall i :: 0 <= i < n ==> HasTurn(ticks, i)
  }

  predicate HasTurn(ticks: seq<Tick>, i: nat) {
    exists k :: 0 <= k < |ticks| && ticks[k].session == i
  }

  function Flatten(rounds: seq<seq<Tick>>): seq<Tick> {
    if rounds == [] then [] else Flatten(rounds[..|rounds| - 1]) + rounds[|rounds| - 1]
  }

  lemma StepUsesUp(w: Setting, s: System, t: Tick)
    requires Sound(w, s)
    ensures var s' := Step(s, t.session, t.fault);
            && |s'.sessions| == |s.sessions|
            && (s' == s || TotalRemaining(s'.sessions) < TotalRemaining(s.sessions))
  {
    if t.session < |s.sessions| && !s.sessions[t.session].Finished() {
      StepsOne(w, s, t.session, t.fault);
      ReplaceOne(s.sessions, t.session, Step(s, t.session, t.fault).sessions[t.session]);
    }
  }

  /** Ticks leave the system alone or use up work. */
  lemma {:induction false} TicksUseUp(w: Setting, s: System, ticks: seq<Tick>)
    requires Sound(w, s)
    ensures |Execute(s, ticks).sessions| == |s.sessions|
    ensures Execute(s, ticks) == s || TotalRemaining(Execute(s, ticks).sessions) < TotalRemaining(s.sessions)
  {
    if ticks != [] {
      var n := |ticks| - 1;
      TicksUseUp(w, s, ticks[..n]);
      StaysSound(w, s, ticks[..n]);
      StepUsesUp(w, Execute(s, ticks[..n]), ticks[n]);
    }
  }

  lemma NoWayBack(w: Setting, s: System, mid: System, t: Tick)
    requires Sound(w, mid)
    requires mid == s || TotalRemaining(mid.sessions) < TotalRemaining(s.sessions)
    requires Step(mid, t.session, t.fault) == s
    ensures mid == s
  {
    StepUsesUp(w, mid, t);
  }

  /** Ticks that leave the system as it was are all idle. */
  lemma {:induction false} AllIdle(w: Setting, s: System, ticks: seq<Tick>, k: nat)
    requires Sound(w, s) && k < |ticks| && Execute(s, ticks) == s
    ensures Step(s, ticks[k].session, ticks[k].fault) == s
  {
    var n := |ticks| - 1;
    assert ticks[..n] + [ticks[n]] == ticks;
    ExecuteSnoc(s, ticks[..n], ticks[n]);
    TicksUseUp(w, s, ticks[..n]);
    StaysSound(w, s, ticks[..n]);
    NoWayBack(w, s, Execute(s, ticks[..n]), ticks[n]);
    if k < n {
      AllIdle(w, s, ticks[..n], k);
    }
  }

  /** A round makes progress unless everyone has finished. */
  lemma RoundUsesUp(w: Setting, s: System, ticks: seq<Tick>)
    requires Sound(w, s) && Round(ticks, |s.sessions|) && !AllFinished(s)
    ensures TotalRemaining(Execute(s, ticks).sessions) < TotalRemaining(s.sessions)
  {
    TicksUseUp(w, s, ticks);
    if Execute(s, ticks) == s {
      var i := SomeoneCanStep(w, s);
      assert HasTurn(ticks, i);
      var k :| 0 <= k < |ticks| && ticks[k].session == i;
      StepsOne(w, s, i, ticks[k].fault);
      AllIdle(w, s, ticks, k);
    }
  }

  lemma {:induction false} RoundsUseUp(w: Setting,
                                       before: seq<Tick>, rounds: seq<seq<Tick>>)
    requires Ordered(w) && forall r :: 0 <= r < |rounds| ==> Round(rounds[r], |w.ops|)
    ensures var s := Execute(w.Begins(), before);
            var s' := Execute(w.Begins(), before + Flatten(rounds));
            && |s'.sessions| == |w.ops|
            && (AllFinished(s') || TotalRemaining(s'.sessions) + |rounds| <= TotalRemaining(s.sessions))
  {
    var start := w.Begins();
    if rounds == [] {
      assert before + Flatten(rounds) == before;
      ReachableSound(w, before);
    } else {
      var n := |rounds| - 1;
      RoundsUseUp(w, before, rounds[..n]);
      LastRound(start, before, rounds);
      ReachableSound(w, before + Flatten(rounds[..n]));
      OneMoreRound(w, Execute(start, before + Flatten(rounds[..n])), rounds[n]);
    }
  }

  lemma LastRound(start: System, before: seq<Tick>, rounds: seq<seq<Tick>>)
    requires rounds != []
    ensures var n := |rounds| - 1;
            Execute(start, before + Flatten(rounds))
            == Execute(Execute(start, before + Flatten(rounds[..n])), rounds[n])
  {
    var n := |rounds| - 1;
    assert before + Flatten(rounds) == (before + Flatten(rounds[..n])) + rounds[n];
    ExecuteConcat(start, before + Flatten(rounds[..n]), rounds[n]);
  }

  lemma OneMoreRound(w: Setting, now: System, ticks: seq<Tick>)
    requires Sound(w, now) && Round(ticks, |now.sessions|)
    ensures |Execute(now, ticks).sessions| == |now.sessions|
    ensures AllFinished(now) ==> AllFinished(Execute(now, ticks))
    ensures AllFinished(now) || TotalRemaining(Execute(now, ticks).sessions) < TotalRemaining(now.sessions)
  {
    TicksUseUp(w, now, ticks);
    if AllFinished(now) {
      FinishedStays(now, ticks);
    } else {
      RoundUsesUp(w, now, ticks);
    }
  }

  lemma {:induction false} FinishedStays(s: System, ticks: seq<Tick>)
    requires AllFinished(s)
    ensures Execute(s, ticks) == s
  {
    if ticks != [] {
      FinishedStays(s, ticks[..|ticks| - 1]);
    }
  }

  /**
   Every fair schedule finishes everyone: after any beginning, with any faults,
   eight rounds per operation in which each session gets a turn are enough.
   */
  lemma FairSchedulesFinish(w: Setting,
                            before: seq<Tick>, rounds: seq<seq<Tick>>)
    requires Ordered(w) && forall r :: 0 <= r < |rounds| ==> Round(rounds[r], |w.ops|)
    requires |rounds| >= 8 * |w.ops|
    ensures AllFinished(Execute(w.Begins(), before + Flatten(rounds)))
  {
    var start := w.Begins();
    RoundsUseUp(w, before, rounds);
    StartRemaining(w);
    ReachableSound(w, []);
    BoundedMoves(w, start, before);
    var s' := Execute(start, before + Flatten(rounds));
    if !AllFinished(s') {
      forall i | 0 <= i < |s'.sessions| ensures s'.sessions[i].Finished() {
        AllZero(s'.sessions, i);
      }
    }
  }
}
