/**
 What `Reverse` undoes. A run in which a transfer is reversed some number of
 times is compared with the same run without the transfer and its reversals.
 */
module LedgerUndo {
  import opened AccountOrder
  import opened Ledger
  import opened LedgerRuns

  /** The ids under which the rows of transfer `t` and of its reversals are written. */
  function OwnIds(t: TxId): set<TxId> {
    {t, ReversalId(t)}
  }

  /** `op` neither reads nor writes a row under one of `ids`. */
  predicate Unrelated(op: Op, ids: set<TxId>) {
    op.id !in ids && (op.Reverse? ==> ReversalId(op.id) !in ids)
  }

  // ---------- Two databases that differ only in rows under `ids` ----------

  /** A ledger row without its running balance. */
  datatype Line = Line(txId: TxId, account: AccountId, amount: int, entryType: EntryType)

  function Bare(e: Entry): Line {
    Line(e.txId, e.account, e.amount, e.entryType)
  }

  function LinesOutside(entries: seq<Entry>, ids: set<TxId>): seq<Line> {
    if entries == [] then []
    else
      var last := entries[|entries| - 1];
      var before := LinesOutside(entries[..|entries| - 1], ids);
      if last.txId in ids then before else before + [Bare(last)]
  }

  /**
   Outside `ids` the two logs have the same rows apart from running balances, and
   each balance is off by the sum of the rows under `ids`.
   */
  ghost predicate Extends(db: Database, base: Database, ids: set<TxId>) {
    && db.accounts.Keys == base.accounts.Keys
    && LinesOutside(db.entries, ids) == LinesOutside(base.entries, ids)
    && (forall a :: a in db.accounts ==>
          db.accounts[a].balance == base.accounts[a].balance + Sum(OfAccountIn(a, ids), db.entries))
  }

  lemma LinesOfAppend(entries: seq<Entry>, e: Entry, ids: set<TxId>)
    ensures LinesOutside(entries + [e], ids)
            == LinesOutside(entries, ids) + if e.txId in ids then [] else [Bare(e)]
  {
    assert (entries + [e])[..|entries|] == entries;
  }

  lemma PostBoth(db: Database, base: Database, ids: set<TxId>, id: TxId, a: AccountId, amount: int, t: EntryType)
    requires Extends(db, base, ids) && a in db.accounts && id !in ids
    ensures Extends(Post(db, id, a, amount, t), Post(base, id, a, amount, t), ids)
  {
    var db', base' := Post(db, id, a, amount, t), Post(base, id, a, amount, t);
    LinesOfAppend(db.entries, db'.entries[|db.entries|], ids);
    LinesOfAppend(base.entries, base'.entries[|base.entries|], ids);
    forall b | b in db'.accounts
      ensures db'.accounts[b].balance == base'.accounts[b].balance + Sum(OfAccountIn(b, ids), db'.entries)
    {
      AppendOne(OfAccountIn(b, ids), db.entries, db'.entries[|db.entries|]);
    }
  }

  lemma PostExtra(db: Database, base: Database, ids: set<TxId>, id: TxId, a: AccountId, amount: int, t: EntryType)
    requires Extends(db, base, ids) && a in db.accounts && id in ids
    ensures Extends(Post(db, id, a, amount, t), base, ids)
  {
    var db' := Post(db, id, a, amount, t);
    LinesOfAppend(db.entries, db'.entries[|db.entries|], ids);
    forall b | b in db'.accounts
      ensures db'.accounts[b].balance == base.accounts[b].balance + Sum(OfAccountIn(b, ids), db'.entries)
    {
      AppendOne(OfAccountIn(b, ids), db.entries, db'.entries[|db.entries|]);
    }
  }

  predicate SameLines(xs: seq<Entry>, ys: seq<Entry>) {
    |xs| == |ys| && forall i :: 0 <= i < |xs| ==> Bare(xs[i]) == Bare(ys[i])
  }

  lemma {:induction false} NegatedBoth(db: Database, base: Database, ids: set<TxId>, id: TxId, xs: seq<Entry>,
                                       ys: seq<Entry>)
    requires Extends(db, base, ids) && id !in ids
    requires SameLines(xs, ys) && AccountsKnown(db.accounts, xs) && AccountsKnown(base.accounts, ys)
    ensures Extends(Negated(db, id, xs), Negated(base, id, ys), ids)
  {
    if xs != [] {
      var n := |xs| - 1;
      var x, y := xs[n], ys[n];
      NegatedLast(db, id, xs, x);
      NegatedLast(base, id, ys, y);
      NegatedBoth(db, base, ids, id, xs[..n], ys[..n]);
      assert Bare(x) == Bare(y);
      StepBoth(Negated(db, id, xs[..n]), Negated(base, id, ys[..n]), Negated(db, id, xs), Negated(base, id, ys),
               ids, id, x, y);
    }
  }

  lemma StepBoth(left: Database, right: Database, left': Database, right': Database, ids: set<TxId>, id: TxId,
                 x: Entry, y: Entry)
    requires Extends(left, right, ids) && id !in ids && Bare(x) == Bare(y) && x.account in left.accounts
    requires left' == Post(left, id, x.account, -x.amount, Opposite(x.entryType))
    requires right' == Post(right, id, y.account, -y.amount, Opposite(y.entryType))
    ensures Extends(left', right', ids)
  {
    PostBoth(left, right, ids, id, x.account, -x.amount, Opposite(x.entryType));
  }

  lemma {:induction false} NegatedExtra(db: Database, base: Database, ids: set<TxId>, id: TxId, xs: seq<Entry>)
    requires Extends(db, base, ids) && id in ids && AccountsKnown(db.accounts, xs)
    ensures Extends(Negated(db, id, xs), base, ids)
  {
    if xs != [] {
      var n := |xs| - 1;
      assert xs[n] in xs;
      NegatedExtra(db, base, ids, id, xs[..n]);
      PostExtra(Negated(db, id, xs[..n]), base, ids, id, xs[n].account, -xs[n].amount, Opposite(xs[n].entryType));
    }
  }

  function LinesWith(lines: seq<Line>, id: TxId): seq<Line> {
    if lines == [] then []
    else
      var before := LinesWith(lines[..|lines| - 1], id);
      if lines[|lines| - 1].txId == id then before + [lines[|lines| - 1]] else before
  }

  lemma {:induction false} SelectFromOutside(entries: seq<Entry>, ids: set<TxId>, id: TxId)
    requires id !in ids
    ensures LinesOutside(EntriesOf(entries, id), ids) == LinesWith(LinesOutside(entries, ids), id)
  {
    if entries != [] {
      var n := |entries| - 1;
      SelectFromOutside(entries[..n], ids, id);
      var outside := LinesOutside(entries[..n], ids);
      assert (outside + [Bare(entries[n])])[..|outside|] == outside;
      LinesOfAppend(EntriesOf(entries[..n], id), entries[n], ids);
    }
  }

  lemma {:induction false} NothingInside(entries: seq<Entry>, ids: set<TxId>)
    requires forall e :: e in entries ==> e.txId !in ids
    ensures forall a :: Sum(OfAccountIn(a, ids), entries) == 0
  {
    if entries != [] {
      var n := |entries| - 1;
      assert entries[n] in entries;
      assert forall e :: e in entries[..n] ==> e in entries;
      NothingInside(entries[..n], ids);
    }
  }

  lemma SameSelection(db: Database, base: Database, ids: set<TxId>, id: TxId)
    requires Extends(db, base, ids) && id !in ids
    ensures SameLines(EntriesOf(db.entries, id), EntriesOf(base.entries, id))
    ensures Reversible(db, id) <==> Reversible(base, id)
  {
    SelectFromOutside(db.entries, ids, id);
    SelectFromOutside(base.entries, ids, id);
    var xs, ys := EntriesOf(db.entries, id), EntriesOf(base.entries, id);
    AllOutside(xs, ids);
    AllOutside(ys, ids);
    SameAccounts(db.accounts, base.accounts, xs, ys);
  }

  lemma {:induction false} AllOutside(xs: seq<Entry>, ids: set<TxId>)
    requires forall e :: e in xs ==> e.txId !in ids
    ensures |LinesOutside(xs, ids)| == |xs|
    ensures forall i :: 0 <= i < |xs| ==> LinesOutside(xs, ids)[i] == Bare(xs[i])
  {
    if xs != [] {
      var n := |xs| - 1;
      assert xs[n] in xs && forall e :: e in xs[..n] ==> e in xs;
      AllOutside(xs[..n], ids);
    }
  }

  lemma SameAccounts(left: map<AccountId, Account>, right: map<AccountId, Account>, xs: seq<Entry>, ys: seq<Entry>)
    requires left.Keys == right.Keys && SameLines(xs, ys)
    ensures AccountsKnown(left, xs) <==> AccountsKnown(right, ys)
  {
    forall i | 0 <= i < |xs| ensures xs[i].account == ys[i].account {
      assert Bare(xs[i]) == Bare(ys[i]);
    }
  }

  lemma StatesAside(db: Database, base: Database, ids: set<TxId>, s: seq<StateRow>, s': seq<StateRow>)
    requires Extends(db, base, ids)
    ensures Extends(db.(states := s), base.(states := s'), ids)
  {
  }

  lemma TransferBoth(db: Database, base: Database, system: AccountId, ids: set<TxId>,
                     from: AccountId, to: AccountId, id: TxId, amount: int)
    requires Extends(db, base, ids) && id !in ids && Transferable(db, system, from, to)
    ensures Transferable(base, system, from, to)
    ensures Extends(Transferred(db, system, from, to, id, amount), Transferred(base, system, from, to, id, amount), ids)
  {
    var credit := Resolve(db.accounts, system, to);
    PostBoth(db, base, ids, id, from, -amount, DEBIT);
    var debited, debited' := Post(db, id, from, -amount, DEBIT), Post(base, id, from, -amount, DEBIT);
    PostBoth(debited, debited', ids, id, credit, amount, CREDIT);
    var pair := [StateRow(id, PENDING), StateRow(id, SUCCESS)];
    StatesAside(Post(debited, id, credit, amount, CREDIT), Post(debited', id, credit, amount, CREDIT), ids,
                db.states + pair, base.states + pair);
  }

  lemma ReverseBoth(db: Database, base: Database, ids: set<TxId>, id: TxId)
    requires Extends(db, base, ids) && id !in ids && ReversalId(id) !in ids
    requires Reversible(db, id) && Reversible(base, id)
    ensures Extends(Reversed(db, id), Reversed(base, id), ids)
  {
    SameSelection(db, base, ids, id);
    var xs, ys := EntriesOf(db.entries, id), EntriesOf(base.entries, id);
    NegatedBoth(db, base, ids, ReversalId(id), xs, ys);
    StatesAside(Negated(db, ReversalId(id), xs), Negated(base, ReversalId(id), ys), ids,
                Reversed(db, id).states, Reversed(base, id).states);
  }

  /** An unrelated operation does the same to both sides, or is refused by both. */
  lemma ApplyBoth(db: Database, base: Database, system: AccountId, ids: set<TxId>, op: Op)
    requires Extends(db, base, ids) && Unrelated(op, ids)
    ensures Enabled(db, system, op) <==> Enabled(base, system, op)
    ensures Extends(Apply(db, system, op), Apply(base, system, op), ids)
  {
    match op
    case Transfer(from, to, id, amount) =>
      if Enabled(db, system, op) {
        TransferBoth(db, base, system, ids, from, to, id, amount);
      }
    case Reverse(id) =>
      SameSelection(db, base, ids, id);
      if Enabled(db, system, op) {
        ReverseBoth(db, base, ids, id);
      }
  }

  // ---------- What the transfer and its reversals leave behind ----------

  /** What transfer `tr` adds to account `a` when it runs in `db`. */
  function Effect(db: Database, system: AccountId, tr: Op, a: AccountId): int
    requires tr.Transfer?
  {
    if !Enabled(db, system, tr) then 0
    else if a == tr.from then -tr.amount
    else if a == Resolve(db.accounts, system, tr.to) then tr.amount
    else 0
  }

  lemma {:induction false} PartsOfSum(entries: seq<Entry>, t: TxId, a: AccountId)
    ensures Sum(OfAccountIn(a, OwnIds(t)), entries)
            == Sum(OfAccountIn(a, {t}), entries) + Sum(OfAccountIn(a, {ReversalId(t)}), entries)
  {
    if entries != [] {
      PartsOfSum(entries[..|entries| - 1], t, a);
      assert |ReversalId(t)| > |t|;
    }
  }

  lemma {:induction false} SumWithin(entries: seq<Entry>, t: TxId, a: AccountId)
    ensures Sum(OfAccountIn(a, {t}), EntriesOf(entries, t)) == Sum(OfAccountIn(a, {t}), entries)
  {
    if entries != [] {
      var n := |entries| - 1;
      SumWithin(entries[..n], t, a);
      AppendOne(OfAccountIn(a, {t}), EntriesOf(entries[..n], t), entries[n]);
    }
  }

  lemma {:induction false} NegatedOwnRows(db: Database, t: TxId, xs: seq<Entry>, a: AccountId)
    requires AccountsKnown(db.accounts, xs) && forall e :: e in xs ==> e.txId == t
    ensures var after := Negated(db, ReversalId(t), xs).entries;
            && Sum(OfAccountIn(a, {t}), after) == Sum(OfAccountIn(a, {t}), db.entries)
            && Sum(OfAccountIn(a, {ReversalId(t)}), after)
               == Sum(OfAccountIn(a, {ReversalId(t)}), db.entries) - Sum(OfAccountIn(a, {t}), xs)
  {
    if xs != [] {
      var n := |xs| - 1;
      assert xs[n] in xs && |ReversalId(t)| > |t|;
      NegatedOwnRows(db, t, xs[..n], a);
      var before := Negated(db, ReversalId(t), xs[..n]);
      var row := Negated(db, ReversalId(t), xs).entries[|before.entries|];
      AppendOne(OfAccountIn(a, {t}), before.entries, row);
      AppendOne(OfAccountIn(a, {ReversalId(t)}), before.entries, row);
    }
  }

  function Times(n: nat, d: int): int {
    if n == 0 then 0 else Times(n - 1, d) + d
  }

  /** Only one copy of a non-zero amount is that amount. */
  lemma {:induction false} TimesOnce(n: nat, d: int)
    ensures Times(n, d) == d <==> n == 1 || d == 0
    ensures d > 0 ==> Times(n, d) >= 0 && (n > 1 ==> Times(n, d) > d)
    ensures d < 0 ==> Times(n, d) <= 0 && (n > 1 ==> Times(n, d) < d)
  {
    if n > 0 {
      TimesOnce(n - 1, d);
    }
  }

  /** On account `a`: the transfer left `d` under `t`, and `n` reversals left -d each under the reversal id. */
  ghost predicate Residue(entries: seq<Entry>, t: TxId, a: AccountId, d: int, n: nat) {
    && Sum(OfAccountIn(a, {t}), entries) == d
    && Sum(OfAccountIn(a, {ReversalId(t)}), entries) == -Times(n, d)
    && ((forall e :: e in entries ==> e.txId != t) ==> d == 0)
  }

  /** Rows written by an operation that is unrelated to `ids` do not enter a sum over `ids`. */
  lemma UnrelatedKeepsSum(db: Database, system: AccountId, op: Op, ids: set<TxId>, a: AccountId)
    requires Unrelated(op, ids)
    ensures Sum(OfAccountIn(a, ids), Apply(db, system, op).entries) == Sum(OfAccountIn(a, ids), db.entries)
  {
    if Enabled(db, system, op) {
      match op
      case Transfer(from, to, id, amount) =>
        var debited := Post(db, id, from, -amount, DEBIT);
        var after := Apply(db, system, op);
        AppendOne(OfAccountIn(a, ids), db.entries, debited.entries[|db.entries|]);
        AppendOne(OfAccountIn(a, ids), debited.entries, after.entries[|debited.entries|]);
      case Reverse(id) =>
        NegatedElsewhere(db, ReversalId(id), EntriesOf(db.entries, id), ids, a);
    }
  }

  lemma {:induction false} NegatedElsewhere(db: Database, id: TxId, xs: seq<Entry>, ids: set<TxId>, a: AccountId)
    requires AccountsKnown(db.accounts, xs) && id !in ids
    ensures Sum(OfAccountIn(a, ids), Negated(db, id, xs).entries) == Sum(OfAccountIn(a, ids), db.entries)
  {
    if xs != [] {
      var n := |xs| - 1;
      assert xs[n] in xs;
      NegatedElsewhere(db, id, xs[..n], ids, a);
      var before := Negated(db, id, xs[..n]);
      AppendOne(OfAccountIn(a, ids), before.entries, Negated(db, id, xs).entries[|before.entries|]);
    }
  }

  lemma {:induction false} NegatedKeepsRows(db: Database, id: TxId, xs: seq<Entry>)
    requires AccountsKnown(db.accounts, xs) && AccountsKnown(db.accounts, db.entries)
    ensures AccountsKnown(db.accounts, Negated(db, id, xs).entries)
    ensures forall e :: e in db.entries ==> e in Negated(db, id, xs).entries
  {
    if xs != [] {
      var n := |xs| - 1;
      assert xs[n] in xs;
      NegatedKeepsRows(db, id, xs[..n]);
    }
  }

  /** Rows are only ever added, and only for accounts that exist. */
  lemma ApplyKeepsRows(db: Database, system: AccountId, op: Op)
    requires AccountsKnown(db.accounts, db.entries)
    ensures AccountsKnown(db.accounts, Apply(db, system, op).entries)
    ensures forall e :: e in db.entries ==> e in Apply(db, system, op).entries
  {
    if Enabled(db, system, op) && op.Reverse? {
      NegatedKeepsRows(db, ReversalId(op.id), EntriesOf(db.entries, op.id));
    }
  }

  lemma TransferLeaves(base: Database, system: AccountId, tr: Op, a: AccountId)
    requires tr.Transfer?
    requires forall e :: e in base.entries ==> e.txId !in OwnIds(tr.id)
    ensures Residue(Apply(base, system, tr).entries, tr.id, a, Effect(base, system, tr, a), 0)
  {
    var t := tr.id;
    assert |ReversalId(t)| > |t|;
    NothingInside(base.entries, {t});
    NothingInside(base.entries, {ReversalId(t)});
    if Enabled(base, system, tr) {
      TwoRows(base, system, tr, {t}, a);
      TwoRows(base, system, tr, {ReversalId(t)}, a);
      assert Apply(base, system, tr).entries[|base.entries|].txId == t;
    }
  }

  lemma TwoRows(base: Database, system: AccountId, tr: Op, ids: set<TxId>, a: AccountId)
    requires tr.Transfer? && Enabled(base, system, tr)
    ensures Sum(OfAccountIn(a, ids), Apply(base, system, tr).entries)
            == Sum(OfAccountIn(a, ids), base.entries) + if tr.id in ids then Effect(base, system, tr, a) else 0
  {
    var debited := Post(base, tr.id, tr.from, -tr.amount, DEBIT);
    var after := Apply(base, system, tr).entries;
    AppendOne(OfAccountIn(a, ids), base.entries, debited.entries[|base.entries|]);
    AppendOne(OfAccountIn(a, ids), debited.entries, after[|debited.entries|]);
  }

  lemma TransferExtends(base: Database, system: AccountId, tr: Op)
    requires tr.Transfer?
    requires forall e :: e in base.entries ==> e.txId !in OwnIds(tr.id)
    ensures Extends(Apply(base, system, tr), base, OwnIds(tr.id))
  {
    var t := tr.id;
    assert Extends(base, base, OwnIds(t)) by {
      NothingInside(base.entries, OwnIds(t));
    }
    if Enabled(base, system, tr) {
      TransferredExtends(base, system, tr.from, tr.to, t, tr.amount);
    }
  }

  lemma TransferredExtends(base: Database, system: AccountId, from: AccountId, to: AccountId, t: TxId, amount: int)
    requires Extends(base, base, OwnIds(t)) && Transferable(base, system, from, to)
    ensures Extends(Transferred(base, system, from, to, t, amount), base, OwnIds(t))
  {
    var credit := Resolve(base.accounts, system, to);
    var debited := Post(base, t, from, -amount, DEBIT);
    var moved := Post(debited, t, credit, amount, CREDIT);
    assert Extends(moved, base, OwnIds(t)) by {
      PostExtra(base, base, OwnIds(t), t, from, -amount, DEBIT);
      PostExtra(debited, base, OwnIds(t), t, credit, amount, CREDIT);
    }
    StatesAside(moved, base, OwnIds(t), Transferred(base, system, from, to, t, amount).states, base.states);
  }

  lemma ReverseLeaves(db: Database, system: AccountId, t: TxId, a: AccountId, d: int, n: nat)
    requires Residue(db.entries, t, a, d, n) && AccountsKnown(db.accounts, db.entries)
    ensures Residue(Apply(db, system, Reverse(t)).entries, t, a, d, n + 1)
  {
    var found := EntriesOf(db.entries, t);
    if Enabled(db, system, Reverse(t)) {
      NegatedKeepsRows(db, ReversalId(t), found);
      NegatedOwnRows(db, t, found, a);
      SumWithin(db.entries, t, a);
    } else {
      NoneFound(db.entries, t);
    }
  }

  lemma ReverseExtends(db: Database, base: Database, system: AccountId, t: TxId)
    requires Extends(db, base, OwnIds(t)) && AccountsKnown(db.accounts, db.entries)
    ensures Extends(Apply(db, system, Reverse(t)), base, OwnIds(t))
    ensures AccountsKnown(db.accounts, Apply(db, system, Reverse(t)).entries)
  {
    var found := EntriesOf(db.entries, t);
    ApplyKeepsRows(db, system, Reverse(t));
    if Enabled(db, system, Reverse(t)) {
      NegatedExtra(db, base, OwnIds(t), ReversalId(t), found);
      StatesAside(Negated(db, ReversalId(t), found), base, OwnIds(t), Apply(db, system, Reverse(t)).states,
                  base.states);
    }
  }

  lemma {:induction false} NoneFound(entries: seq<Entry>, t: TxId)
    ensures EntriesOf(entries, t) == [] ==> forall e :: e in entries ==> e.txId != t
  {
    if entries != [] {
      NoneFound(entries[..|entries| - 1], t);
      assert entries == entries[..|entries| - 1] + [entries[|entries| - 1]];
    }
  }

  // ---------- The theorem ----------

  function Reversals(ops: seq<Op>, t: TxId): nat {
    if ops == [] then 0
    else Reversals(ops[..|ops| - 1], t) + if ops[|ops| - 1] == Reverse(t) then 1 else 0
  }

  /** The operations that have nothing to do with transfer `t`. */
  function Others(ops: seq<Op>, t: TxId): seq<Op> {
    if ops == [] then []
    else
      var before := Others(ops[..|ops| - 1], t);
      if Unrelated(ops[|ops| - 1], OwnIds(t)) then before + [ops[|ops| - 1]] else before
  }

  predicate Fits(db: Database, system: AccountId, op: Op, t: TxId) {
    op == Reverse(t) || Unrelated(op, OwnIds(t)) || !Enabled(db, system, op)
  }

  /**
   Of the operations related to `t`, the run from `db` accepts only calls of Reverse on `t`;
   it may refuse any others.
   */
  predicate OnlyReverses(db: Database, system: AccountId, ops: seq<Op>, t: TxId)
    decreases |ops|
  {
    ops == [] ||
      var m := |ops| - 1;
      && OnlyReverses(db, system, ops[..m], t)
      && Fits(Run(db, system, ops[..m]), system, ops[m], t)
  }

  /** The run from `db` refuses every operation related to `t`. */
  predicate Quiet(db: Database, system: AccountId, ops: seq<Op>, t: TxId)
    decreases |ops|
  {
    ops == [] ||
      var m := |ops| - 1;
      && Quiet(db, system, ops[..m], t)
      && (Unrelated(ops[m], OwnIds(t)) || !Enabled(Run(db, system, ops[..m]), system, ops[m]))
  }

  lemma {:induction false} RestExtends(db: Database, base: Database, system: AccountId, t: TxId, rest: seq<Op>)
    requires Extends(db, base, OwnIds(t)) && OnlyReverses(db, system, rest, t) && AccountsKnown(db.accounts, db.entries)
    ensures AccountsKnown(db.accounts, Run(db, system, rest).entries)
    ensures Extends(Run(db, system, rest), Run(base, system, Others(rest, t)), OwnIds(t))
  {
    if rest != [] {
      var m := |rest| - 1;
      var op := rest[m];
      RestExtends(db, base, system, t, rest[..m]);
      var db', kept := Run(db, system, rest[..m]), Others(rest[..m], t);
      var base' := Run(base, system, kept);
      if op == Reverse(t) {
        ReverseExtends(db', base', system, t);
      } else if Unrelated(op, OwnIds(t)) {
        assert (kept + [op])[..|kept|] == kept;
        ApplyBoth(db', base', system, OwnIds(t), op);
        ApplyKeepsRows(db', system, op);
      }
    }
  }

  lemma StepLeaves(db: Database, system: AccountId, t: TxId, a: AccountId, d: int, n: nat, op: Op)
    requires Residue(db.entries, t, a, d, n) && AccountsKnown(db.accounts, db.entries)
    requires op == Reverse(t) || Unrelated(op, OwnIds(t)) || !Enabled(db, system, op)
    ensures Residue(Apply(db, system, op).entries, t, a, d, if op == Reverse(t) then n + 1 else n)
  {
    if op == Reverse(t) {
      ReverseLeaves(db, system, t, a, d, n);
    } else if Unrelated(op, OwnIds(t)) {
      ApplyKeepsRows(db, system, op);
      UnrelatedKeepsSum(db, system, op, {t}, a);
      UnrelatedKeepsSum(db, system, op, {ReversalId(t)}, a);
    }
  }

  lemma {:induction false} RestLeaves(db: Database, system: AccountId, t: TxId, a: AccountId, d: int, rest: seq<Op>)
    requires Residue(db.entries, t, a, d, 0) && OnlyReverses(db, system, rest, t)
             && AccountsKnown(db.accounts, db.entries)
    ensures AccountsKnown(db.accounts, Run(db, system, rest).entries)
    ensures Residue(Run(db, system, rest).entries, t, a, d, Reversals(rest, t))
  {
    if rest != [] {
      var m := |rest| - 1;
      RestLeaves(db, system, t, a, d, rest[..m]);
      var before := Run(db, system, rest[..m]);
      ApplyKeepsRows(before, system, rest[m]);
      StepLeaves(before, system, t, a, d, Reversals(rest[..m], t), rest[m]);
    }
  }

  /**
   `db` has no row under the id of transfer `tr` or its reversal id; the run
   performs `tr`, then any operations of which, among those related to it, only
   `n` calls of Reverse on its id are accepted. Against the run of the other
   operations alone, each balance has what the transfer moved once added and `n`
   times taken away.
   */
  lemma ReversalsScaleEffect(db: Database, system: AccountId, tr: Op, rest: seq<Op>, a: AccountId)
    requires tr.Transfer? && AccountsKnown(db.accounts, db.entries)
    requires forall e :: e in db.entries ==> e.txId !in OwnIds(tr.id)
    requires OnlyReverses(Apply(db, system, tr), system, rest, tr.id) && a in db.accounts
    ensures Run(db, system, [tr] + rest).accounts[a].balance
            == Run(db, system, Others(rest, tr.id)).accounts[a].balance
               + Effect(db, system, tr, a) - Times(Reversals(rest, tr.id), Effect(db, system, tr, a))
  {
    RunOne(db, system, tr, rest);
    TransferThenRest(db, system, tr, rest, a);
  }

  lemma TransferThenRest(db: Database, system: AccountId, tr: Op, rest: seq<Op>, a: AccountId)
    requires tr.Transfer? && AccountsKnown(db.accounts, db.entries)
    requires forall e :: e in db.entries ==> e.txId !in OwnIds(tr.id)
    requires OnlyReverses(Apply(db, system, tr), system, rest, tr.id) && a in db.accounts
    ensures Run(Apply(db, system, tr), system, rest).accounts[a].balance
            == Run(db, system, Others(rest, tr.id)).accounts[a].balance
               + Effect(db, system, tr, a) - Times(Reversals(rest, tr.id), Effect(db, system, tr, a))
  {
    ApplyKeepsRows(db, system, tr);
    TransferLeaves(db, system, tr, a);
    TransferExtends(db, system, tr);
    RestCompares(Apply(db, system, tr), db, system, tr.id, a, Effect(db, system, tr, a), rest);
  }

  lemma RestCompares(moved: Database, db: Database, system: AccountId, t: TxId, a: AccountId, d: int, rest: seq<Op>)
    requires Extends(moved, db, OwnIds(t)) && Residue(moved.entries, t, a, d, 0)
    requires AccountsKnown(moved.accounts, moved.entries) && OnlyReverses(moved, system, rest, t) && a in db.accounts
    ensures Run(moved, system, rest).accounts[a].balance
            == Run(db, system, Others(rest, t)).accounts[a].balance + d - Times(Reversals(rest, t), d)
  {
    RestLeaves(moved, system, t, a, d, rest);
    RestExtends(moved, db, system, t, rest);
    PartsOfSum(Run(moved, system, rest).entries, t, a);
  }

  lemma RunOne(db: Database, system: AccountId, op: Op, rest: seq<Op>)
    ensures Run(db, system, [op] + rest) == Run(Apply(db, system, op), system, rest)
  {
    RunConcat(db, system, [op], rest);
    assert [op][..0] == [];
  }

  /**
   A committed transfer of a non-zero amount is undone exactly when it was
   reversed exactly once: Reverse does not check whether it already ran.
   */
  lemma UndoneExactlyOnce(db: Database, system: AccountId, tr: Op, rest: seq<Op>)
    requires tr.Transfer? && AccountsKnown(db.accounts, db.entries)
    requires forall e :: e in db.entries ==> e.txId !in OwnIds(tr.id)
    requires OnlyReverses(Apply(db, system, tr), system, rest, tr.id)
    requires Enabled(db, system, tr) && tr.amount != 0
    ensures Reversals(rest, tr.id) == 1 <==>
            forall a :: a in db.accounts ==>
              Run(db, system, [tr] + rest).accounts[a].balance
              == Run(db, system, Others(rest, tr.id)).accounts[a].balance
  {
    if Reversals(rest, tr.id) == 1 {
      forall a | a in db.accounts
        ensures Run(db, system, [tr] + rest).accounts[a].balance
                == Run(db, system, Others(rest, tr.id)).accounts[a].balance
      {
        EffectCancels(db, system, tr, rest, a);
      }
    } else {
      NotUndone(db, system, tr, rest);
    }
  }

  lemma EffectCancels(db: Database, system: AccountId, tr: Op, rest: seq<Op>, a: AccountId)
    requires tr.Transfer? && AccountsKnown(db.accounts, db.entries)
    requires forall e :: e in db.entries ==> e.txId !in OwnIds(tr.id)
    requires OnlyReverses(Apply(db, system, tr), system, rest, tr.id) && a in db.accounts
    requires Reversals(rest, tr.id) == 1 || !Enabled(db, system, tr)
    ensures Run(db, system, [tr] + rest).accounts[a].balance
            == Run(db, system, Others(rest, tr.id)).accounts[a].balance
  {
    ReversalsScaleEffect(db, system, tr, rest, a);
    TimesOnce(Reversals(rest, tr.id), Effect(db, system, tr, a));
  }

  lemma NotUndone(db: Database, system: AccountId, tr: Op, rest: seq<Op>)
    requires tr.Transfer? && AccountsKnown(db.accounts, db.entries)
    requires forall e :: e in db.entries ==> e.txId !in OwnIds(tr.id)
    requires OnlyReverses(Apply(db, system, tr), system, rest, tr.id)
    requires Enabled(db, system, tr) && tr.amount != 0 && Reversals(rest, tr.id) != 1
    ensures tr.from in db.accounts
    ensures Run(db, system, [tr] + rest).accounts[tr.from].balance
            != Run(db, system, Others(rest, tr.id)).accounts[tr.from].balance
  {
    ReversalsScaleEffect(db, system, tr, rest, tr.from);
    TimesOnce(Reversals(rest, tr.id), Effect(db, system, tr, tr.from));
  }

  // ---------- A pair anywhere in a run ----------

  lemma {:induction false} QuietIsOthers(db: Database, system: AccountId, ops: seq<Op>, t: TxId)
    requires Quiet(db, system, ops, t)
    ensures Run(db, system, ops) == Run(db, system, Others(ops, t)) && OnlyReverses(db, system, ops, t)
  {
    if ops != [] {
      var m := |ops| - 1;
      QuietIsOthers(db, system, ops[..m], t);
      var kept := Others(ops[..m], t);
      assert (kept + [ops[m]])[..|kept|] == kept;
    }
  }

  /** While no row of `t` exists, a run that refuses everything related to it adds none. */
  lemma {:induction false} QuietAddsNoOwnRows(db: Database, system: AccountId, ops: seq<Op>, t: TxId)
    requires AccountsKnown(db.accounts, db.entries) && Quiet(db, system, ops, t)
    requires forall e :: e in db.entries ==> e.txId !in OwnIds(t)
    ensures AccountsKnown(db.accounts, Run(db, system, ops).entries)
    ensures forall e :: e in Run(db, system, ops).entries ==> e.txId !in OwnIds(t)
  {
    if ops != [] {
      var m := |ops| - 1;
      QuietAddsNoOwnRows(db, system, ops[..m], t);
      var before := Run(db, system, ops[..m]);
      ApplyKeepsRows(before, system, ops[m]);
      if Enabled(before, system, ops[m]) && ops[m].Reverse? {
        NegatedRows(before, ReversalId(ops[m].id), EntriesOf(before.entries, ops[m].id));
      }
    }
  }

  lemma {:induction false} OthersConcat(xs: seq<Op>, ys: seq<Op>, t: TxId)
    ensures Others(xs + ys, t) == Others(xs, t) + Others(ys, t)
    ensures Reversals(xs + ys, t) == Reversals(xs, t) + Reversals(ys, t)
  {
    if ys == [] {
      assert xs + ys == xs;
    } else {
      var m := |ys| - 1;
      OthersConcat(xs, ys[..m], t);
      assert (xs + ys)[..|xs| + m] == xs + ys[..m];
    }
  }

  lemma OnlyReversesSnoc(db: Database, system: AccountId, ops: seq<Op>, op: Op, t: TxId)
    ensures OnlyReverses(db, system, ops + [op], t)
            <==> OnlyReverses(db, system, ops, t) && Fits(Run(db, system, ops), system, op, t)
  {
    assert (ops + [op])[..|ops|] == ops;
  }

  lemma {:induction false} OnlyReversesConcat(db: Database, system: AccountId, xs: seq<Op>, ys: seq<Op>, t: TxId)
    requires OnlyReverses(db, system, xs, t) && OnlyReverses(Run(db, system, xs), system, ys, t)
    ensures OnlyReverses(db, system, xs + ys, t)
    decreases |ys|
  {
    if ys == [] {
      assert xs + ys == xs;
    } else {
      var m := |ys| - 1;
      assert ys == ys[..m] + [ys[m]];
      OnlyReversesSnoc(Run(db, system, xs), system, ys[..m], ys[m], t);
      OnlyReversesConcat(db, system, xs, ys[..m], t);
      RunConcat(db, system, xs, ys[..m]);
      OnlyReversesSnoc(db, system, xs + ys[..m], ys[m], t);
      assert xs + ys == (xs + ys[..m]) + [ys[m]];
    }
  }

  /** Once rows of `t` exist a call of Reverse on it is accepted, so a quiet run has none. */
  lemma {:induction false} QuietHasNoReversal(db: Database, system: AccountId, ops: seq<Op>, t: TxId)
    requires AccountsKnown(db.accounts, db.entries) && Quiet(db, system, ops, t)
    requires exists e :: e in db.entries && e.txId == t
    ensures Reversals(ops, t) == 0
    ensures AccountsKnown(db.accounts, Run(db, system, ops).entries)
    ensures forall e :: e in db.entries ==> e in Run(db, system, ops).entries
  {
    if ops != [] {
      var m := |ops| - 1;
      QuietHasNoReversal(db, system, ops[..m], t);
      var before := Run(db, system, ops[..m]);
      ApplyKeepsRows(before, system, ops[m]);
      NoneFound(before.entries, t);
    }
  }

  /** The state after `tr`, then `mid`, then a reversal of `tr`. */
  function Reverted(db: Database, system: AccountId, tr: Op, mid: seq<Op>): Database {
    Apply(Run(Apply(db, system, tr), system, mid), system, Reverse(tr.id))
  }

  lemma RevertedRun(db: Database, system: AccountId, tr: Op, mid: seq<Op>, post: seq<Op>)
    ensures Run(Apply(db, system, tr), system, mid + [Reverse(tr.id)]) == Reverted(db, system, tr, mid)
    ensures Run(db, system, [tr] + (mid + [Reverse(tr.id)] + post)) == Run(Reverted(db, system, tr, mid), system, post)
  {
    var back := mid + [Reverse(tr.id)];
    assert back[..|mid|] == mid;
    RunOne(db, system, tr, back + post);
    RunConcat(Apply(db, system, tr), system, back, post);
  }

  lemma OneReversal(db: Database, system: AccountId, tr: Op, mid: seq<Op>, post: seq<Op>)
    requires tr.Transfer? && AccountsKnown(db.accounts, db.entries) && Enabled(db, system, tr)
    requires Quiet(Apply(db, system, tr), system, mid, tr.id)
    requires Quiet(Reverted(db, system, tr, mid), system, post, tr.id)
    ensures Reversals(mid + [Reverse(tr.id)] + post, tr.id) == 1
  {
    var t, moved := tr.id, Apply(db, system, tr);
    ApplyKeepsRows(db, system, tr);
    assert moved.entries[|db.entries|].txId == t;
    QuietHasNoReversal(moved, system, mid, t);
    ApplyKeepsRows(Run(moved, system, mid), system, Reverse(t));
    QuietHasNoReversal(Reverted(db, system, tr, mid), system, post, t);
    OthersConcat(mid, [Reverse(t)], t);
    OthersConcat(mid + [Reverse(t)], post, t);
    assert [Reverse(t)][..0] == [];
  }

  lemma PairOnlyReverses(db: Database, system: AccountId, tr: Op, mid: seq<Op>, post: seq<Op>)
    requires Quiet(Apply(db, system, tr), system, mid, tr.id)
    requires Quiet(Reverted(db, system, tr, mid), system, post, tr.id)
    ensures OnlyReverses(Apply(db, system, tr), system, mid + [Reverse(tr.id)] + post, tr.id)
    ensures Others(mid + [Reverse(tr.id)] + post, tr.id) == Others(mid + post, tr.id)
  {
    var t, moved := tr.id, Apply(db, system, tr);
    QuietIsOthers(moved, system, mid, t);
    QuietIsOthers(Reverted(db, system, tr, mid), system, post, t);
    OnlyReversesSnoc(moved, system, mid, Reverse(t), t);
    RevertedRun(db, system, tr, mid, post);
    OnlyReversesConcat(moved, system, mid + [Reverse(t)], post, t);
    OthersConcat(mid, [Reverse(t)], t);
    OthersConcat(mid + [Reverse(t)], post, t);
    OthersConcat(mid, post, t);
    assert [Reverse(t)][..0] == [] && Others([Reverse(t)], t) == [];
  }

  lemma PairUndone(start: Database, system: AccountId, tr: Op, mid: seq<Op>, post: seq<Op>, a: AccountId)
    requires tr.Transfer? && AccountsKnown(start.accounts, start.entries) && a in start.accounts
    requires forall e :: e in start.entries ==> e.txId !in OwnIds(tr.id)
    requires Quiet(Apply(start, system, tr), system, mid, tr.id)
    requires Quiet(Reverted(start, system, tr, mid), system, post, tr.id)
    ensures Run(Reverted(start, system, tr, mid), system, post).accounts[a].balance
            == Run(start, system, Others(mid + post, tr.id)).accounts[a].balance
  {
    PairOnlyReverses(start, system, tr, mid, post);
    if Enabled(start, system, tr) {
      OneReversal(start, system, tr, mid, post);
    }
    EffectCancels(start, system, tr, mid + [Reverse(tr.id)] + post, a);
    RevertedRun(start, system, tr, mid, post);
  }

  lemma OthersAfter(db: Database, system: AccountId, pre: seq<Op>, rest: seq<Op>, t: TxId)
    requires Quiet(db, system, pre, t)
    ensures Run(Run(db, system, pre), system, Others(rest, t)) == Run(db, system, Others(pre + rest, t))
  {
    QuietIsOthers(db, system, pre, t);
    OthersConcat(pre, rest, t);
    RunConcat(db, system, Others(pre, t), Others(rest, t));
  }

  /**
   One transfer and one later reversal of it, anywhere in a run of any other
   operations of which those related to it are refused, leave every balance as
   the run of the unrelated operations alone does.
   */
  lemma ReverseUndoes(db: Database, system: AccountId, pre: seq<Op>, tr: Op, mid: seq<Op>, post: seq<Op>)
    requires tr.Transfer? && AccountsKnown(db.accounts, db.entries)
    requires forall e :: e in db.entries ==> e.txId !in OwnIds(tr.id)
    requires Quiet(db, system, pre, tr.id)
    requires Quiet(Apply(Run(db, system, pre), system, tr), system, mid, tr.id)
    requires Quiet(Reverted(Run(db, system, pre), system, tr, mid), system, post, tr.id)
    ensures forall a :: a in db.accounts ==>
              Run(Reverted(Run(db, system, pre), system, tr, mid), system, post).accounts[a].balance
              == Run(db, system, Others(pre + (mid + post), tr.id)).accounts[a].balance
  {
    var start := Run(db, system, pre);
    QuietAddsNoOwnRows(db, system, pre, tr.id);
    OthersAfter(db, system, pre, mid + post, tr.id);
    forall a | a in db.accounts
      ensures Run(Reverted(start, system, tr, mid), system, post).accounts[a].balance
              == Run(start, system, Others(mid + post, tr.id)).accounts[a].balance
    {
      PairUndone(start, system, tr, mid, post, a);
    }
  }
}
