/**
 Exactly when concurrent operations are serializable in commit order. A reversal
 reads its entries before it takes any lock, so a second write under the same id
 can commit between that read and the reversal's own commit.
 */
module LedgerSerialExactly {
  import opened AccountOrder
  import opened Ledger
  import opened LedgerRuns
  import opened LedgerStatements
  import opened LedgerConcurrency
  import opened LedgerLocking
  import opened LedgerSerializability
  import opened LedgerAlone

  /** The committed accounts, balances and versions, are those of the committed operations run in commit order. */
  ghost predicate InCommitOrder(w: Setting, s: System) {
    && (forall i :: i in s.commits ==> i < |s.sessions|)
    && s.accounts == SerialState(w.system, w.opening, s).accounts
  }

  // ---------- Settled states ----------

  ghost function Log(w: Setting, s: System): Database
    requires forall i :: i in s.commits ==> i < |s.sessions|
  {
    SerialState(w.system, w.opening, s)
  }

  /** Every session has yet to begin or has committed, and the state is that of the serial run. */
  ghost predicate Settled(w: Setting, s: System) {
    && Of(w, s) && (forall i :: i in s.commits ==> i < |s.sessions|) && Still(s, Log(w, s))
    && forall j :: 0 <= j < |s.sessions| ==> s.sessions[j] == Begun(w.ops[j]) || s.sessions[j].stage.Committed?
  }

  lemma BeginsSettled(w: Setting)
    ensures Settled(w, w.Begins()) && Log(w, w.Begins()) == Database(w.opening, [], [])
  {
    var s := w.Begins();
    assert Serial(s) == [];
    assert Bare([]) == [];
  }

  lemma SerialSnoc(s: System, s': System, i: nat)
    requires forall k :: k in s.commits ==> k < |s.sessions|
    requires i < |s.sessions| && |s'.sessions| == |s.sessions| && s'.commits == s.commits + [i]
    requires forall k :: 0 <= k < |s.sessions| ==> s'.sessions[k].op == s.sessions[k].op
    ensures forall k :: k in s'.commits ==> k < |s'.sessions|
    ensures Serial(s') == Serial(s) + [s.sessions[i].op]
  {
    forall k | 0 <= k < |s.commits| ensures s'.commits[k] == s.commits[k] && s.commits[k] < |s.sessions| {
      assert s.commits[k] in s.commits;
    }
    assert s'.commits[|s.commits|] == i;
  }

  /** After one more session has run alone the serial run has one more operation. */
  lemma LogSnoc(w: Setting, s: System, s': System, i: nat)
    requires Of(w, s) && (forall k :: k in s.commits ==> k < |s.sessions|) && i < |s.sessions|
    requires |s'.sessions| == |s.sessions| && s'.commits == s.commits + [i]
    requires forall k :: 0 <= k < |s.sessions| ==> s'.sessions[k].op == s.sessions[k].op
    ensures (forall k :: k in s'.commits ==> k < |s'.sessions|)
    ensures Log(w, s') == Apply(Log(w, s), w.system, s.sessions[i].op)
  {
    SerialSnoc(s, s', i);
    RunSnoc(Database(w.opening, [], []), w.system, Serial(s), s.sessions[i].op);
  }

  lemma Settles(w: Setting, s: System, i: nat) returns (ticks: seq<Tick>)
    requires Settled(w, s) && i < |s.sessions| && s.sessions[i] == Begun(w.ops[i])
    requires Enabled(Log(w, s), w.system, w.ops[i])
    ensures Ran(s, Execute(s, ticks), i) && Settled(w, Execute(s, ticks))
  {
    ticks := RunsAlone(s, Log(w, s), i);
    SettledAfter(w, s, Execute(s, ticks), i);
  }

  lemma SettledAfter(w: Setting, s: System, s': System, i: nat)
    requires Settled(w, s) && Ran(s, s', i) && Still(s', Apply(Log(w, s), w.system, s.sessions[i].op))
    ensures Settled(w, s')
  {
    LogSnoc(w, s, s', i);
  }

  // ---------- Making an operation ready ----------

  /** Only sessions that write under shorter ids than `n` may have moved. */
  predicate OnlyShorter(w: Setting, s: System, s': System, n: nat)
    requires |s.sessions| == |s'.sessions| == |w.ops|
  {
    forall j :: 0 <= j < |w.ops| && |WrittenId(w.ops[j])| >= n ==> s'.sessions[j] == s.sessions[j]
  }

  lemma WrittenReversible(db: Database, t: TxId)
    requires Written(db, t) && AccountsKnown(db.accounts, db.entries)
    ensures Reversible(db, t)
  {
  }

  /** Whatever can write can be brought to where it is accepted, by running only what it depends on. */
  lemma {:induction false} MakeReady(w: Setting, s: System, i: nat) returns (ticks: seq<Tick>)
    requires Settled(w, s) && i < |w.ops| && w.CanWrite(w.ops[i])
    ensures Settled(w, Execute(s, ticks)) && OnlyShorter(w, s, Execute(s, ticks), |WrittenId(w.ops[i])|)
    ensures Enabled(Log(w, Execute(s, ticks)), w.system, w.ops[i])
    decreases |WrittenId(w.ops[i])|, 0
  {
    ticks := [];
    match w.ops[i]
    case Transfer(_, _, _, _) =>
      SameEnabled(w, Log(w, s), i);
    case Reverse(id) =>
      var j :| 0 <= j < |w.ops| && WrittenId(w.ops[j]) == id && w.CanWrite(w.ops[j]);
      if !s.sessions[j].stage.Committed? {
        ticks := RunReady(w, s, j);
      }
      WrittenReversible(Log(w, Execute(s, ticks)), id);
  }

  lemma SameEnabled(w: Setting, db: Database, i: nat)
    requires i < |w.ops| && w.ops[i].Transfer? && w.CanWrite(w.ops[i]) && db.accounts.Keys == w.opening.Keys
    ensures Enabled(db, w.system, w.ops[i])
  {
    ResolveStays(w.opening, db.accounts, w.system, w.ops[i].to);
  }

  /** Makes session `j` ready and runs it. */
  lemma {:induction false} RunReady(w: Setting, s: System, j: nat) returns (ticks: seq<Tick>)
    requires Settled(w, s) && j < |w.ops| && w.CanWrite(w.ops[j]) && !s.sessions[j].stage.Committed?
    ensures Settled(w, Execute(s, ticks)) && OnlyShorter(w, s, Execute(s, ticks), |WrittenId(w.ops[j])| + 1)
    ensures Execute(s, ticks).sessions[j].stage.Committed?
    ensures forall k :: 0 <= k < |w.ops| && k != j && |WrittenId(w.ops[k])| >= |WrittenId(w.ops[j])|
              ==> Execute(s, ticks).sessions[k] == s.sessions[k]
    decreases |WrittenId(w.ops[j])|, 1
  {
    var before := MakeReady(w, s, j);
    var s' := Execute(s, before);
    assert s'.sessions[j] == s.sessions[j];
    var last := Settles(w, s', j);
    ExecuteConcat(s, before, last);
    ticks := before + last;
  }

  // ---------- Two writers under a reversed id ----------

  lemma {:induction false} CountConcat(which: Selector, xs: seq<Entry>, ys: seq<Entry>)
    ensures Count(which, xs + ys) == Count(which, xs) + Count(which, ys)
  {
    if ys == [] {
      assert xs + ys == xs;
    } else {
      var n := |ys| - 1;
      CountConcat(which, xs, ys[..n]);
      assert xs + ys == (xs + ys[..n]) + [ys[n]] && ys == ys[..n] + [ys[n]];
      AppendOne(which, xs + ys[..n], ys[n]);
      AppendOne(which, ys[..n], ys[n]);
    }
  }

  lemma {:induction false} NegatedVersion(db: Database, id: TxId, entries: seq<Entry>, a: AccountId)
    requires AccountsKnown(db.accounts, entries) && a in db.accounts
    ensures Negated(db, id, entries).accounts[a].version == db.accounts[a].version + Count(OfAccount(a), entries)
  {
    if entries != [] {
      var n := |entries| - 1;
      NegatedLast(db, id, entries, entries[n]);
      NegatedVersion(db, id, entries[..n], a);
    }
  }

  /** A serial reversal after another write under its id negates more than what was there before that write. */
  lemma NegatesMore(db: Database, before: Database, system: AccountId, t: TxId, more: seq<Entry>)
    requires db.entries == before.entries + more && more != [] && AccountsKnown(db.accounts, db.entries)
    requires Written(before, t) && forall e :: e in more ==> e.txId == t
    ensures Enabled(db, system, Reverse(t)) && AccountsKnown(db.accounts, EntriesOf(before.entries, t))
    ensures Apply(db, system, Reverse(t)).accounts != Negated(db, ReversalId(t), EntriesOf(before.entries, t)).accounts
  {
    var found, a := EntriesOf(before.entries, t), more[0].account;
    EntriesOfConcat(before.entries, more, t);
    EntriesNamed(more, t, t);
    assert more[0] in db.entries && forall e :: e in found ==> e in db.entries;
    NegatedVersion(db, ReversalId(t), found, a);
    NegatedVersion(db, ReversalId(t), found + more, a);
    CountConcat(OfAccount(a), found, more);
    AtLeastOne(more);
  }

  lemma AtLeastOne(entries: seq<Entry>)
    requires entries != []
    ensures Count(OfAccount(entries[0].account), entries) >= 1
  {
    assert entries == [] + [entries[0]] + entries[1..];
    CountConcat(OfAccount(entries[0].account), [] + [entries[0]], entries[1..]);
    AppendOne(OfAccount(entries[0].account), [], entries[0]);
  }

  /** The rows that an accepted operation adds. */
  lemma AddsRows(s: System, db: Database, j: nat) returns (more: seq<Entry>)
    requires Still(s, db) && j < |s.sessions| && s.sessions[j].stage.Beginning?
    requires Enabled(db, s.systemAccount, s.sessions[j].op)
    ensures Apply(db, s.systemAccount, s.sessions[j].op).entries == db.entries + more && more != []
    ensures forall e :: e in more ==> e.txId == WrittenId(s.sessions[j].op)
  {
    var plan := Opens(s, db, j);
    ExecConfined(s.accounts, WrittenId(s.sessions[j].op), plan);
    ApplyWrites(db, s.systemAccount, s.sessions[j].op);
    return Exec(s.accounts, WrittenId(s.sessions[j].op), plan).value.rows;
  }

  /** A reversal that has read `found` and is then left alone negates just that. */
  lemma ReversalEnds(s: System, db: Database, k: nat, t: TxId, found: seq<Entry>)
    requires Still(s, db) && k < |s.sessions| && AccountsKnown(db.accounts, found)
    requires s.sessions[k] == Opened(Begun(Reverse(t)), ReversePlan(found))
    ensures var s' := Execute(s, Turns(k, |ReversePlan(found)| + 1));
            && s'.accounts == Negated(db, ReversalId(t), found).accounts
            && s'.commits == s.commits + [k] && |s'.sessions| == |s.sessions|
            && forall j :: 0 <= j < |s.sessions| ==> s'.sessions[j].op == s.sessions[j].op
  {
    ReversalIsNegated(db, ReversalId(t), found);
    Completes(s, k);
    ExecuteShape(s, Turns(k, |ReversePlan(found)| + 1));
  }

  /** The reversal reads, session `j` writes under the same id and commits, and then the reversal goes on. */
  lemma ReversalStrays(w: Setting, s: System, k: nat, j: nat, t: TxId) returns (ticks: seq<Tick>)
    requires Settled(w, s) && k < |w.ops| && j < |w.ops| && k != j && w.ops[k] == Reverse(t) && WrittenId(w.ops[j]) == t
    requires s.sessions[k] == Begun(w.ops[k]) && s.sessions[j] == Begun(w.ops[j])
    requires Enabled(Log(w, s), w.system, w.ops[j]) && Written(Log(w, s), t)
    ensures !InCommitOrder(w, Execute(s, ticks))
  {
    ReversalOpens(s, Log(w, s), k, t);
    var rest := WritesBetween(w, s, Step(s, k, false), k, j, t);
    ExecuteOne(s, Tick(k, false), rest);
    ticks := [Tick(k, false)] + rest;
  }

  /** After the read, `s'`: session `j` runs, and then the reversal goes on. */
  lemma WritesBetween(w: Setting, s: System, s': System, k: nat, j: nat, t: TxId) returns (ticks: seq<Tick>)
    requires Of(w, s) && (forall i :: i in s.commits ==> i < |s.sessions|)
    requires k < |w.ops| && j < |w.ops| && k != j && w.ops[k] == Reverse(t) && WrittenId(w.ops[j]) == t
    requires s.sessions[k] == Begun(w.ops[k]) && s.sessions[j] == Begun(w.ops[j])
    requires Enabled(Log(w, s), w.system, w.ops[j]) && Written(Log(w, s), t) && Still(s', Log(w, s))
    requires s' == Put(s, k, Opened(s.sessions[k], ReversePlan(EntriesOf(Log(w, s).entries, t))))
    ensures !InCommitOrder(w, Execute(s', ticks))
  {
    var plan := ReversePlan(EntriesOf(Log(w, s).entries, t));
    var run := RunsAlone(s', Log(w, s), j);
    var more := AddsRows(s', Log(w, s), j);
    AfterWrite(w, s, s', Execute(s', run), k, j, t, more);
    ExecuteConcat(s', run, Turns(k, |plan| + 1));
    ticks := run + Turns(k, |plan| + 1);
  }

  lemma AfterWrite(w: Setting, s: System, s': System, s'': System, k: nat, j: nat, t: TxId, more: seq<Entry>)
    requires Of(w, s) && (forall i :: i in s.commits ==> i < |s.sessions|)
    requires k < |w.ops| && j < |w.ops| && k != j && w.ops[k] == Reverse(t) && s.sessions[k] == Begun(w.ops[k])
    requires Written(Log(w, s), t) && Still(s'', Apply(Log(w, s), w.system, w.ops[j])) && Ran(s', s'', j)
    requires s' == Put(s, k, Opened(s.sessions[k], ReversePlan(EntriesOf(Log(w, s).entries, t))))
    requires Apply(Log(w, s), w.system, w.ops[j]).entries == Log(w, s).entries + more
    requires more != [] && forall e :: e in more ==> e.txId == t
    ensures !InCommitOrder(w, Execute(s'', Turns(k, |ReversePlan(EntriesOf(Log(w, s).entries, t))| + 1)))
  {
    RanBetween(w, s, s', s'', k, j, ReversePlan(EntriesOf(Log(w, s).entries, t)));
    LogBetween(w, s, s'', j);
    LastStrays(w, s'', Log(w, s), k, t, more);
  }

  /** Session `k` has begun, and then session `j` has run: what that leaves of the rest. */
  lemma RanBetween(w: Setting, s: System, s': System, s'': System, k: nat, j: nat, plan: seq<Statement>)
    requires Of(w, s) && k < |w.ops| && k != j && s.sessions[k] == Begun(w.ops[k])
    requires s' == Put(s, k, Opened(s.sessions[k], plan)) && Ran(s', s'', j)
    ensures |s''.sessions| == |s.sessions| && s''.commits == s.commits + [j] && Of(w, s'')
    ensures s''.sessions[k] == Opened(Begun(w.ops[k]), plan)
  {
    forall i | 0 <= i < |w.ops| ensures s''.sessions[i].op == w.ops[i] {
      assert s'.sessions[i].op == s.sessions[i].op;
    }
  }

  lemma LogBetween(w: Setting, s: System, s'': System, j: nat)
    requires Of(w, s) && Of(w, s'') && (forall i :: i in s.commits ==> i < |s.sessions|) && j < |w.ops|
    requires s''.commits == s.commits + [j]
    ensures forall i :: i in s''.commits ==> i < |s''.sessions|
    ensures Log(w, s'') == Apply(Log(w, s), w.system, w.ops[j])
  {
    LogSnoc(w, s, s'', j);
  }

  /** `more` was written under the id after the reversal had read what `before` has under it. */
  lemma LastStrays(w: Setting, s: System, before: Database, k: nat, t: TxId, more: seq<Entry>)
    requires Of(w, s) && (forall i :: i in s.commits ==> i < |s.sessions|) && Still(s, Log(w, s))
    requires k < |w.ops| && w.ops[k] == Reverse(t) && Written(before, t)
    requires Log(w, s).entries == before.entries + more && more != [] && forall e :: e in more ==> e.txId == t
    requires s.sessions[k] == Opened(Begun(Reverse(t)), ReversePlan(EntriesOf(before.entries, t)))
    ensures !InCommitOrder(w, Execute(s, Turns(k, |ReversePlan(EntriesOf(before.entries, t))| + 1)))
  {
    var found := EntriesOf(before.entries, t);
    NegatesMore(Log(w, s), before, w.system, t, more);
    ReversalEnds(s, Log(w, s), k, t, found);
    LogSnoc(w, s, Execute(s, Turns(k, |ReversePlan(found)| + 1)), k);
  }

  /** If two operations can write under a reversed id, some schedule is not in commit order. */
  lemma TwoWritersStray(w: Setting, k: nat, i: nat, j: nat) returns (ticks: seq<Tick>)
    requires k < |w.ops| && w.ops[k].Reverse? && w.Writes(i, w.ops[k].id) && w.Writes(j, w.ops[k].id) && i != j
    ensures !InCommitOrder(w, Execute(w.Begins(), ticks))
  {
    BeginsSettled(w);
    var s0 := w.Begins();
    var first := RunReady(w, s0, i);
    var s1 := Execute(s0, first);
    assert s1.sessions[j] == s0.sessions[j] && s1.sessions[k] == s0.sessions[k];
    var second := MakeReady(w, s1, j);
    var s2 := Execute(s1, second);
    assert s2.sessions[i] == s1.sessions[i] && s2.sessions[j] == s1.sessions[j] && s2.sessions[k] == s1.sessions[k];
    var last := ReversalStrays(w, s2, k, j, w.ops[k].id);
    ExecuteConcat(s0, first, second);
    ExecuteConcat(s0, first + second, last);
    ticks := first + second + last;
  }

  /**
   For every list of transfers and reversals: under every schedule, with any
   faults, the committed accounts are those of the committed operations run in
   commit order, if and only if no reversed id can be written by two of them.
   */
  lemma SerialExactly(w: Setting)
    ensures (forall schedule :: InCommitOrder(w, Execute(w.Begins(), schedule))) <==> w.SingleWriters()
  {
    if w.SingleWriters() {
      forall schedule ensures InCommitOrder(w, Execute(w.Begins(), schedule)) {
        Serializable(w, schedule);
      }
    } else {
      var k :| 0 <= k < |w.ops| && w.ops[k].Reverse? && !w.WrittenOnce(w.ops[k].id);
      var i, j :| w.Writes(i, w.ops[k].id) && w.Writes(j, w.ops[k].id) && i != j;
      var ticks := TwoWritersStray(w, k, i, j);
      assert !InCommitOrder(w, Execute(w.Begins(), ticks));
    }
  }
}
