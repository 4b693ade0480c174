/**
 Serializability: concurrent transfers and reversals end in the accounts and
 per-account ledgers of the serial execution of the committed ones in commit
 order, as long as no reversed id can be written twice.
 */
module LedgerSerializability {
  import opened AccountOrder
  import opened Ledger
  import opened LedgerRuns
  import opened LedgerStatements
  import opened LedgerConcurrency
  import opened LedgerLocking

  // ---------- The invariant ----------

  predicate Wrote(s: System, i: int, t: TxId) {
    0 <= i < |s.sessions| && s.sessions[i].stage.Committed? && WrittenId(s.sessions[i].op) == t
  }

  /** The serial entries under `t` are those of the one committed session that writes under it, if there is one. */
  ghost predicate ByIdOk(s: System, serial: Database, t: TxId) {
    && (forall i :: Wrote(s, i, t) ==> EntriesOf(serial.entries, t) == s.sessions[i].local.rows)
    && ((forall i :: !Wrote(s, i, t)) ==> EntriesOf(serial.entries, t) == [])
  }

  ghost predicate ByIdsOk(s: System, serial: Database) {
    forall k :: 0 <= k < |s.sessions| && s.sessions[k].op.Reverse? ==> ByIdOk(s, serial, s.sessions[k].op.id)
  }

  /** Only what can write commits, and a running reversal negates what the serial one would negate now. */
  ghost predicate ReadsOk(w: Setting, serial: Database, x: Session) {
    && (x.stage.Committed? ==> w.CanWrite(x.op))
    && (x.stage.Running? && x.op.Reverse?
        ==> && w.CanWrite(x.op) && EntriesOf(serial.entries, x.op.id) != []
            && x.plan == ReversePlan(EntriesOf(serial.entries, x.op.id)))
  }

  ghost predicate SerialInv(w: Setting, s: System, serial: Database) {
    && Inv(s, serial) && Of(w, s) && ByIdsOk(s, serial)
    && forall i :: 0 <= i < |s.sessions| ==> ReadsOk(w, serial, s.sessions[i])
  }

  lemma OneCommitted(w: Setting, s: System, serial: Database, t: TxId, i: int, j: int)
    requires SerialInv(w, s, serial) && w.WrittenOnce(t) && Wrote(s, i, t) && Wrote(s, j, t)
    ensures i == j
  {
    assert ReadsOk(w, serial, s.sessions[i]) && ReadsOk(w, serial, s.sessions[j]);
    assert w.Writes(i, t) && w.Writes(j, t);
  }

  // ---------- Steps that commit nothing ----------

  lemma {:induction false} CommittedUnder(s: System, rows: seq<Row>, t: TxId, j: nat)
    requires NamedByOwner(s, rows) && Wrote(s, j, t) && forall k :: Wrote(s, k, t) ==> k == j
    ensures EntriesOf(CommittedRows(s, rows), t) == Owned(rows, j)
  {
    if rows != [] {
      var n := |rows| - 1;
      var r := rows[n];
      assert r in rows && forall r :: r in rows[..n] ==> r in rows;
      CommittedUnder(s, rows[..n], t, j);
      assert r.entry.txId == t && s.sessions[r.owner].stage.Committed? ==> Wrote(s, r.owner, t);
      OneEntry(CommittedRows(s, rows[..n]), r.entry, t);
    }
  }

  lemma {:induction false} NothingUnder(s: System, rows: seq<Row>, t: TxId)
    requires NamedByOwner(s, rows) && forall k :: !Wrote(s, k, t)
    ensures EntriesOf(CommittedRows(s, rows), t) == []
  {
    if rows != [] {
      var n := |rows| - 1;
      var r := rows[n];
      assert r in rows && forall r :: r in rows[..n] ==> r in rows;
      NothingUnder(s, rows[..n], t);
      assert !Wrote(s, r.owner, t);
      OneEntry(CommittedRows(s, rows[..n]), r.entry, t);
    }
  }

  /** A reversal reads what the serial ledger has under its id, and finds entries only if it can write. */
  lemma ReadsSerially(w: Setting, s: System, serial: Database, i: nat)
    requires SerialInv(w, s, serial) && w.SingleWriters() && i < |s.sessions| && s.sessions[i].op.Reverse?
    ensures var t := s.sessions[i].op.id;
            && EntriesOf(CommittedRows(s, s.rows), t) == EntriesOf(serial.entries, t)
            && (EntriesOf(serial.entries, t) != [] ==> w.CanWrite(s.sessions[i].op))
  {
    var t := s.sessions[i].op.id;
    assert ByIdOk(s, serial, t) && w.WrittenOnce(w.ops[i].id);
    if j :| Wrote(s, j, t) {
      forall k | Wrote(s, k, t) ensures k == j {
        OneCommitted(w, s, serial, t, k, j);
      }
      CommittedUnder(s, s.rows, t, j);
      assert OwnerOk(s, j) && ReadsOk(w, serial, s.sessions[j]);
      assert WrittenId(w.ops[j]) == t && w.CanWrite(w.ops[j]);
    } else {
      NothingUnder(s, s.rows, t);
    }
  }

  /** What a step makes of its own session, if it does not commit it. */
  lemma OwnSession(s: System, t: Tick)
    requires t.session < |s.sessions| && !Commits(s, t) && |Step(s, t.session, t.fault).sessions| == |s.sessions|
    ensures var x, x' := s.sessions[t.session], Step(s, t.session, t.fault).sessions[t.session];
            && (x'.stage.Committed? <==> x.stage.Committed?)
            && (x'.stage.Running? ==>
                  || (x.stage.Running? && x'.plan == x.plan)
                  || (x.stage.Beginning? && Step(s, t.session, t.fault) == Begin(s, t.session)))
  {
  }

  lemma QuietSession(w: Setting, s: System, serial: Database, t: Tick)
    requires SerialInv(w, s, serial) && w.SingleWriters() && !Commits(s, t) && t.session < |s.sessions|
    requires |Step(s, t.session, t.fault).sessions| == |s.sessions|
    requires Step(s, t.session, t.fault).sessions[t.session].op == s.sessions[t.session].op
    ensures ReadsOk(w, serial, Step(s, t.session, t.fault).sessions[t.session])
  {
    var x := s.sessions[t.session];
    OwnSession(s, t);
    assert ReadsOk(w, serial, x);
    if x.stage.Beginning? && x.op.Reverse? {
      ReadsSerially(w, s, serial, t.session);
    }
  }

  lemma QuietKeeps(w: Setting, s: System, serial: Database, t: Tick)
    requires SerialInv(w, s, serial) && w.SingleWriters() && !Commits(s, t)
    ensures SerialInv(w, Step(s, t.session, t.fault), serial)
  {
    var s' := Step(s, t.session, t.fault);
    StepKeeps(s, serial, serial, t);
    StepShape(s, t);
    if t.session < |s.sessions| {
      OwnSession(s, t);
    }
    forall j | 0 <= j < |s'.sessions| ensures ReadsOk(w, serial, s'.sessions[j]) {
      assert ReadsOk(w, serial, s.sessions[j]);
      if j == t.session {
        QuietSession(w, s, serial, t);
      }
    }
    forall k | 0 <= k < |s'.sessions| && s'.sessions[k].op.Reverse? ensures ByIdOk(s', serial, s'.sessions[k].op.id) {
      var id := s.sessions[k].op.id;
      assert ByIdOk(s, serial, id);
      assert forall j :: Wrote(s', j, id) <==> Wrote(s, j, id);
      forall j | Wrote(s', j, id) ensures s'.sessions[j].local.rows == s.sessions[j].local.rows {
        CommittedStays(s, t, j);
      }
    }
  }

  lemma CommittedStays(s: System, t: Tick, j: nat)
    requires j < |s.sessions| && s.sessions[j].stage.Committed?
    ensures j < |Step(s, t.session, t.fault).sessions| && Step(s, t.session, t.fault).sessions[j] == s.sessions[j]
  {
    StepShape(s, t);
  }

  // ---------- Commits ----------

  /** Committing session `i` is its operation applied to the serial state, and it is one that can write. */
  lemma CommitIsSerial(w: Setting, s: System, serial: Database, i: nat)
    requires SerialInv(w, s, serial) && i < |s.sessions| && s.sessions[i].Committing()
    ensures IsPosted(serial, s.sessions[i].local, Apply(serial, s.systemAccount, s.sessions[i].op))
    ensures w.CanWrite(s.sessions[i].op)
  {
    var x := s.sessions[i];
    assert SessionOk(s.accounts, x) && PlanOk(s.systemAccount, s.accounts, x) && ReadsOk(w, serial, x);
    assert x.plan[..x.next] == x.plan;
    match x.op
    case Transfer(_, to, _, _) =>
      var after := CommittingPosts(serial, s.systemAccount, x);
      ResolveStays(serial.accounts, w.opening, w.system, to);
    case Reverse(id) =>
      ReversalSucceeds(serial.accounts, WrittenId(x.op), EntriesOf(serial.entries, id));
      ReversalIsNegated(serial, WrittenId(x.op), EntriesOf(serial.entries, id));
  }

  /** What the commit of session `i` adds under an id. */
  lemma CommitAdds(serial: Database, serial': Database, x: Session, t: TxId)
    requires serial'.entries == serial.entries + x.local.rows
    requires forall e :: e in x.local.rows ==> e.txId == WrittenId(x.op)
    ensures EntriesOf(serial'.entries, t)
            == EntriesOf(serial.entries, t) + if WrittenId(x.op) == t then x.local.rows else []
  {
    EntriesOfConcat(serial.entries, x.local.rows, t);
    EntriesNamed(x.local.rows, WrittenId(x.op), t);
  }

  lemma CommitById(s: System, serial: Database, serial': Database, i: nat, t: TxId)
    requires ByIdOk(s, serial, t) && i < |s.sessions| && s.sessions[i].Committing()
    requires WrittenId(s.sessions[i].op) == t ==> forall k :: !Wrote(s, k, t)
    requires serial'.entries == serial.entries + s.sessions[i].local.rows
    requires forall e :: e in s.sessions[i].local.rows ==> e.txId == WrittenId(s.sessions[i].op)
    ensures ByIdOk(Commit(s, i), serial', t)
    ensures EntriesOf(serial.entries, t) != [] ==> EntriesOf(serial'.entries, t) == EntriesOf(serial.entries, t)
  {
    var s', x := Commit(s, i), s.sessions[i];
    CommitAdds(serial, serial', x, t);
    if WrittenId(x.op) == t {
      forall k | Wrote(s', k, t) ensures k == i {
        assert !Wrote(s, k, t);
      }
      assert Wrote(s', i, t);
    } else {
      forall k ensures Wrote(s', k, t) <==> Wrote(s, k, t) {
      }
    }
  }

  /** If session `i` can write under a reversed id, nobody has written under it before. */
  lemma FirstUnder(w: Setting, s: System, serial: Database, i: nat, t: TxId, k: int)
    requires SerialInv(w, s, serial) && w.WrittenOnce(t) && i < |s.sessions| && w.CanWrite(s.sessions[i].op)
    requires WrittenId(s.sessions[i].op) == t && !s.sessions[i].stage.Committed?
    ensures !Wrote(s, k, t)
  {
    if Wrote(s, k, t) {
      assert ReadsOk(w, serial, s.sessions[k]);
      assert w.Writes(i, t) && w.Writes(k, t);
    }
  }

  lemma CommitUnder(w: Setting, s: System, serial: Database, serial': Database, i: nat, k: nat)
    requires SerialInv(w, s, serial) && w.SingleWriters() && i < |s.sessions| && s.sessions[i].Committing()
    requires serial'.entries == serial.entries + s.sessions[i].local.rows && w.CanWrite(s.sessions[i].op)
    requires k < |s.sessions| && s.sessions[k].op.Reverse?
    ensures var t := s.sessions[k].op.id;
            && ByIdOk(Commit(s, i), serial', t)
            && (EntriesOf(serial.entries, t) != [] ==> EntriesOf(serial'.entries, t) == EntriesOf(serial.entries, t))
  {
    var t := s.sessions[k].op.id;
    assert ByIdOk(s, serial, t) && w.WrittenOnce(w.ops[k].id) && SessionOk(s.accounts, s.sessions[i]);
    if WrittenId(s.sessions[i].op) == t {
      forall j ensures !Wrote(s, j, t) {
        FirstUnder(w, s, serial, i, t, j);
      }
    }
    CommitById(s, serial, serial', i, t);
  }

  lemma CommitKeepsSerial(w: Setting, s: System, serial: Database, i: nat)
    requires SerialInv(w, s, serial) && w.SingleWriters() && i < |s.sessions| && s.sessions[i].Committing()
    ensures SerialInv(w, Commit(s, i), Apply(serial, s.systemAccount, s.sessions[i].op))
  {
    var s', serial' := Commit(s, i), Apply(serial, s.systemAccount, s.sessions[i].op);
    CommitIsSerial(w, s, serial, i);
    CommitKeeps(s, serial, serial', i);
    CommitByIds(w, s, serial, serial', i);
    forall j | 0 <= j < |s'.sessions| ensures ReadsOk(w, serial', s'.sessions[j]) {
      CommitReads(w, s, serial, serial', i, j);
    }
  }

  lemma CommitByIds(w: Setting, s: System, serial: Database, serial': Database, i: nat)
    requires SerialInv(w, s, serial) && w.SingleWriters() && i < |s.sessions| && s.sessions[i].Committing()
    requires serial'.entries == serial.entries + s.sessions[i].local.rows && w.CanWrite(s.sessions[i].op)
    ensures ByIdsOk(Commit(s, i), serial')
  {
    var s' := Commit(s, i);
    forall k | 0 <= k < |s'.sessions| && s'.sessions[k].op.Reverse? ensures ByIdOk(s', serial', s'.sessions[k].op.id) {
      CommitUnder(w, s, serial, serial', i, k);
    }
  }

  lemma CommitReads(w: Setting, s: System, serial: Database, serial': Database, i: nat, j: nat)
    requires SerialInv(w, s, serial) && w.SingleWriters() && i < |s.sessions| && s.sessions[i].Committing()
    requires serial'.entries == serial.entries + s.sessions[i].local.rows && w.CanWrite(s.sessions[i].op)
    requires j < |s.sessions|
    ensures ReadsOk(w, serial', Commit(s, i).sessions[j])
  {
    assert ReadsOk(w, serial, s.sessions[j]);
    if j != i && s.sessions[j].op.Reverse? {
      CommitUnder(w, s, serial, serial', i, j);
    }
  }

  // ---------- Whole executions ----------

  /** A step commits at most one session, and then the serial state performs its operation. */
  function SerialStep(s: System, serial: Database, t: Tick): Database {
    if Commits(s, t) then Apply(serial, s.systemAccount, s.sessions[t.session].op) else serial
  }

  lemma StepKeepsSerial(w: Setting, s: System, serial: Database, t: Tick)
    requires SerialInv(w, s, serial) && w.SingleWriters()
    ensures SerialInv(w, Step(s, t.session, t.fault), SerialStep(s, serial, t))
  {
    if Commits(s, t) {
      CommitKeepsSerial(w, s, serial, t.session);
    } else {
      QuietKeeps(w, s, serial, t);
    }
  }

  function SerialState(systemAccount: AccountId, opening: map<AccountId, Account>, s: System): Database
    requires forall i :: i in s.commits ==> i < |s.sessions|
  {
    Run(Database(opening, [], []), systemAccount, Serial(s))
  }

  lemma SerialGrows(systemAccount: AccountId, opening: map<AccountId, Account>, s: System, t: Tick)
    requires forall i :: i in s.commits ==> i < |s.sessions|
    requires s.systemAccount == systemAccount
    ensures var s' := Step(s, t.session, t.fault);
            && (forall i :: i in s'.commits ==> i < |s'.sessions|)
            && SerialState(systemAccount, opening, s') == SerialStep(s, SerialState(systemAccount, opening, s), t)
  {
    StepShape(s, t);
    var s' := Step(s, t.session, t.fault);
    var n := |s.commits|;
    forall k | 0 <= k < n ensures Serial(s')[k] == Serial(s)[k] {
      assert s.commits[k] in s.commits && s'.commits[k] == s.commits[k];
    }
    if s'.commits == s.commits {
      assert Serial(s') == Serial(s);
    } else {
      assert Serial(s')[..n] == Serial(s);
    }
  }

  lemma BeginsSerial(w: Setting)
    ensures SerialInv(w, w.Begins(), Database(w.opening, [], []))
  {
    BeginsOk(w);
  }

  /** The invariant holds in every reachable state, with the serial run of its commits. */
  lemma {:induction false} Reachable(w: Setting, schedule: seq<Tick>)
    requires w.SingleWriters()
    ensures var s := Execute(w.Begins(), schedule);
            && (forall i :: i in s.commits ==> i < |s.sessions|)
            && SerialInv(w, s, SerialState(w.system, w.opening, s))
  {
    if schedule == [] {
      BeginsSerial(w);
    } else {
      var n := |schedule| - 1;
      Reachable(w, schedule[..n]);
      var s, t := Execute(w.Begins(), schedule[..n]), schedule[n];
      StepKeepsSerial(w, s, SerialState(w.system, w.opening, s), t);
      SerialGrows(w.system, w.opening, s, t);
    }
  }

  /**
   Serializability. In every state reachable under any schedule, with any faults,
   the committed accounts and the committed rows of each account are those of
   running the committed operations one after the other in commit order, provided
   no reversed id can be written by two of them.
   */
  lemma Serializable(w: Setting, schedule: seq<Tick>)
    requires w.SingleWriters()
    ensures var s := Execute(w.Begins(), schedule);
            && (forall i :: i in s.commits ==> i < |s.sessions| && s.sessions[i].stage.Committed?)
            && (var serial := SerialState(w.system, w.opening, s);
                && s.accounts == serial.accounts
                && forall a :: CommittedRows(s, RowsOn(s.rows, a)) == EntriesOn(serial.entries, a))
  {
    Reachable(w, schedule);
    var s := Execute(w.Begins(), schedule);
    var serial := SerialState(w.system, w.opening, s);
    forall a ensures CommittedRows(s, RowsOn(s.rows, a)) == EntriesOn(serial.entries, a) {
      CommittedRowsOn(s, serial, a);
    }
  }

  /** Transfers alone meet the condition, whatever their ids. */
  lemma TransfersOnly(w: Setting)
    requires forall i :: 0 <= i < |w.ops| ==> w.ops[i].Transfer?
    ensures w.SingleWriters()
  {
  }
}
