/**
 One-time USSD codes: one table of hashed codes, filled by the USSD service,
 consumed by the service and by the payment provider, and cleaned up by age.
 */
module Ussd {
  import opened Common
  import opened Sums

  // ---------- Hashing a code ----------

  /** SHA-256 is a parameter: nothing below depends on what it computes. */
  type Digest = string

  function Iterate(sha: string -> string, code: string, n: nat): string {
    if n == 0 then code else sha(Iterate(sha, code, n - 1))
  }

  /** The hash is applied once before the loop, so configured counts below one act as one. */
  function Rounds(iterations: int): nat {
    if iterations > 1 then iterations else 1
  }

  const PROVIDER_ITERATIONS := 10000

  method HashCode(sha: string -> string, code: string, iterations: int) returns (hash: Digest)
    ensures hash == Iterate(sha, code, Rounds(iterations))
    ensures iterations >= 1 ==> hash == Iterate(sha, code, iterations)
    ensures iterations <= 1 ==> hash == sha(code)
  {
    hash := sha(code);
    var i := 1;
    while i < iterations
      invariant 1 <= i <= Rounds(iterations)
      invariant hash == Iterate(sha, code, i)
    {
      hash := sha(hash);
      i := i + 1;
    }
  }

  lemma {:induction false} LengthCounts(n: nat)
    ensures |Iterate((s: string) => s + "x", "", n)| == n
  {
    if n > 0 {
      LengthCounts(n - 1);
    }
  }

  /**
   The service and the provider hash alike, whatever the hash, exactly when the service is
   configured for 10000 rounds.
   */
  lemma HashesAgree(iterations: int)
    ensures (forall sha: string -> string, code ::
               Iterate(sha, code, Rounds(iterations)) == Iterate(sha, code, Rounds(PROVIDER_ITERATIONS)))
            <==> iterations == 10000
  {
    var grow := (s: string) => s + "x";
    LengthCounts(Rounds(iterations));
    LengthCounts(Rounds(PROVIDER_ITERATIONS));
    if iterations != PROVIDER_ITERATIONS {
      assert Iterate(grow, "", Rounds(iterations)) != Iterate(grow, "", Rounds(PROVIDER_ITERATIONS));
    }
  }

  // ---------- The table ----------

  /** A row of `ussd_codes`; `code_hash` is unique, so the table is keyed by it. */
  datatype Row = Row(id: nat, codeType: string, user: string, amount: int, expiresAt: int, used: bool, usedAt: int)

  type Rows = map<Digest, Row>

  datatype Wallet = Wallet(balance: int, active: bool)

  datatype CodeError =
    | NotStored
    | InvalidCode
    | AlreadyUsed
    | Expired
    | WrongUser
    | AmountMismatch
    | NotPositive
    | AccountNotFound
    | AccountNotActive
    | InsufficientBalance

  const DAY := 24 * 60 * 60

  predicate Storable(rows: Rows, digest: Digest, codeType: string, amount: int) {
    digest !in rows && amount > 0 && (codeType == "PUSH" || codeType == "PULL")
  }

  predicate Consumable(rows: Rows, digest: Digest, codeType: string, now: int) {
    digest in rows && rows[digest].codeType == codeType && !rows[digest].used && now <= rows[digest].expiresAt
  }

  function Marked(rows: Rows, digest: Digest, now: int): Rows
    requires digest in rows
  {
    rows[digest := rows[digest].(used := true, usedAt := now)]
  }

  predicate Stale(row: Row, now: int) {
    row.expiresAt < now || (row.used && row.usedAt < now - DAY)
  }

  function Cleaned(rows: Rows, now: int): Rows {
    map d | d in rows && !Stale(rows[d], now) :: rows[d]
  }

  /** The checks made after the code has been marked used and that transaction committed. */
  function AccountCheck(accounts: map<string, Wallet>, from: string, amount: int): Option<CodeError> {
    if amount <= 0 then Some(NotPositive)
    else if from !in accounts then Some(AccountNotFound)
    else if !accounts[from].active then Some(AccountNotActive)
    else if accounts[from].balance < amount then Some(InsufficientBalance)
    else None
  }

  /** Each UPDATE silently touches no row when the account is unknown. */
  function Adjusted(accounts: map<string, Wallet>, id: string, delta: int): map<string, Wallet> {
    if id in accounts then accounts[id := accounts[id].(balance := accounts[id].balance + delta)] else accounts
  }

  function Moved(accounts: map<string, Wallet>, from: string, to: string, amount: int): map<string, Wallet> {
    Adjusted(Adjusted(accounts, from, -amount), to, amount)
  }

  // ---------- What that comes to ----------

  /** The row is marked used at `now`; nothing else in it and no other row has changed. */
  predicate OnlyUsed(before: Rows, after: Rows, digest: Digest, now: int) {
    && digest in before && after.Keys == before.Keys
    && after[digest].used && after[digest].usedAt == now
        && after[digest].(used := false, usedAt := 0) == before[digest].(used := false, usedAt := 0)
    && forall d :: d in before && d != digest ==> after[d] == before[d]
  }

  /** A known payer has lost the amount, a known payee has gained it, and nothing else has changed. */
  predicate Pays(before: map<string, Wallet>, after: map<string, Wallet>, from: string, to: string, amount: int) {
    && after.Keys == before.Keys
    && (from in before ==> after[from] == Wallet(before[from].balance - amount, before[from].active))
    && (to in before ==> after[to] == Wallet(before[to].balance + amount, before[to].active))
    && forall a :: a in before && a != from && a != to ==> after[a] == before[a]
  }

  class CodeStore {
    var rows: Rows
    var accounts: map<string, Wallet>
    var nextId: nat
    const hashIterations: int
    const codeTimeout: int

    /** The table and the wallets as a state of the runs below, with these payments under way. */
    ghost function View(tickets: seq<Ticket>): World
      reads this
    {
      World(rows, accounts, nextId, tickets, [])
    }

    constructor (hashIterations: int, codeTimeout: int, accounts: map<string, Wallet>)
      ensures this.hashIterations == hashIterations && this.codeTimeout == codeTimeout
      ensures rows == map[] && this.accounts == accounts && nextId == 0
    {
      this.hashIterations, this.codeTimeout := hashIterations, codeTimeout;
      this.rows, this.accounts, this.nextId := map[], accounts, 0;
    }

    /**
     The INSERT of `generateCode`. The table's constraints can refuse it; so, with
     `accepted` false, can a database failure or a clash of the random transaction id.
     */
    method StoreCode(sha: string -> string, code: string, codeType: string, user: string, amount: int, now: int,
                     accepted: bool)
      returns (err: Option<CodeError>)
      modifies this`rows, this`nextId
      ensures var digest := Iterate(sha, code, Rounds(hashIterations));
              && (err.None? <==> accepted && Storable(old(rows), digest, codeType, amount))
              && (err.None? <==> accepted && digest !in old(rows) && amount > 0 && codeType in {"PUSH", "PULL"})
              && (err.None?
                  ==> var row := Row(old(nextId), codeType, user, amount, now + codeTimeout, false, 0);
                      rows == old(rows)[digest := row])
              && (err.None? ==> nextId == old(nextId) + 1)
              && (err.Some? ==> rows == old(rows) && nextId == old(nextId))
      ensures var digest := Iterate(sha, code, Rounds(hashIterations));
              var after := Apply(old(View([])), Issue(digest, codeType, user, amount, now + codeTimeout));
              accepted ==> rows == after.rows && nextId == after.nextId
    {
      var digest := HashCode(sha, code, hashIterations);
      if !accepted || digest in rows || amount <= 0 || (codeType != "PUSH" && codeType != "PULL") {
        return Some(NotStored);
      }
      rows := rows[digest := Row(nextId, codeType, user, amount, now + codeTimeout, false, 0)];
      nextId := nextId + 1;
      return None;
    }

    method ValidateAndConsume(sha: string -> string, code: string, expectedType: string, now: int)
      returns (r: Result<Row, CodeError>)
      modifies this`rows
      ensures var digest := Iterate(sha, code, Rounds(hashIterations));
              && (r.Ok? <==> Consumable(old(rows), digest, expectedType, now))
              && (r.Ok? ==> r.value == old(rows)[digest] && rows == Marked(old(rows), digest, now))
              && (r.Err? ==> rows == old(rows))
      ensures var digest := Iterate(sha, code, Rounds(hashIterations));
              var known := digest in old(rows) && old(rows)[digest].codeType == expectedType;
              && (r.Ok? <==> known && !old(rows)[digest].used && now <= old(rows)[digest].expiresAt)
              && (r == Err(InvalidCode) <==> !known)
              && (r == Err(AlreadyUsed) <==> known && old(rows)[digest].used)
              && (r == Err(Expired) <==> known && !old(rows)[digest].used && now > old(rows)[digest].expiresAt)
              && (r.Ok? ==> OnlyUsed(old(rows), rows, digest, now))
              && rows == Apply(old(View([])), Consume(digest, expectedType, now)).rows
    {
      var digest := HashCode(sha, code, hashIterations);
      if digest !in rows || rows[digest].codeType != expectedType {
        return Err(InvalidCode);
      }
      var row := rows[digest];
      if row.used {
        return Err(AlreadyUsed);
      }
      if now > row.expiresAt {
        return Err(Expired);
      }
      rows := rows[digest := row.(used := true, usedAt := now)];
      return Ok(row);
    }

    /** The provider's check: a code can be spent here and the payment still be refused. */
    method ValidatePayment(sha: string -> string, code: string, codeType: string, user: string, amount: int,
                           from: string, now: int)
      returns (err: Option<CodeError>)
      modifies this`rows
      ensures var digest := Iterate(sha, code, Rounds(PROVIDER_ITERATIONS));
              var spent := Consumable(old(rows), digest, codeType, now) && old(rows)[digest].user == user
                           && old(rows)[digest].amount == amount;
              && rows == (if spent then Marked(old(rows), digest, now) else old(rows))
              && (err.None? <==> spent && AccountCheck(accounts, from, amount).None?)
              && (spent ==> err == AccountCheck(accounts, from, amount))
      ensures var digest := Iterate(sha, code, Rounds(PROVIDER_ITERATIONS));
              var known := digest in old(rows) && old(rows)[digest].codeType == codeType;
              var live := known && !old(rows)[digest].used && now <= old(rows)[digest].expiresAt;
              var spent := live && old(rows)[digest].user == user && old(rows)[digest].amount == amount;
              && (err == Some(InvalidCode) <==> !known)
              && (err == Some(AlreadyUsed) <==> known && old(rows)[digest].used)
              && (err == Some(Expired) <==> known && !old(rows)[digest].used && now > old(rows)[digest].expiresAt)
              && (err == Some(WrongUser) <==> live && old(rows)[digest].user != user)
              && (err == Some(AmountMismatch)
                  <==> live && old(rows)[digest].user == user && old(rows)[digest].amount != amount)
              && (if spent then OnlyUsed(old(rows), rows, digest, now) else rows == old(rows))
      ensures forall to :: var digest := Iterate(sha, code, Rounds(PROVIDER_ITERATIONS));
                           var after := Apply(old(View([])), Validate(digest, codeType, user, amount, from, to, now));
                           rows == after.rows && after.tickets == if err.None? then [Ticket(from, to, amount)] else []
      ensures var digest := Iterate(sha, code, Rounds(PROVIDER_ITERATIONS));
              var known := digest in old(rows) && old(rows)[digest].codeType == codeType;
              var live := known && !old(rows)[digest].used && now <= old(rows)[digest].expiresAt;
              var spent := live && old(rows)[digest].user == user && old(rows)[digest].amount == amount;
              && (err.None? ==> spent && amount > 0 && from in accounts && accounts[from].active
                                && accounts[from].balance >= amount)
              && (err == Some(NotPositive) <==> spent && amount <= 0)
              && (err == Some(AccountNotFound) <==> spent && amount > 0 && from !in accounts)
              && (err == Some(AccountNotActive) <==> spent && amount > 0 && from in accounts && !accounts[from].active)
              && (err == Some(InsufficientBalance)
                  <==> spent && amount > 0 && from in accounts && accounts[from].active
                       && accounts[from].balance < amount)
    {
      var digest := HashCode(sha, code, PROVIDER_ITERATIONS);
      if digest !in rows || rows[digest].codeType != codeType {
        return Some(InvalidCode);
      }
      var row := rows[digest];
      if row.used {
        return Some(AlreadyUsed);
      }
      if now > row.expiresAt {
        return Some(Expired);
      }
      if row.user != user {
        return Some(WrongUser);
      }
      if row.amount != amount {
        return Some(AmountMismatch);
      }
      rows := rows[digest := row.(used := true, usedAt := now)];
      if amount <= 0 {
        return Some(NotPositive);
      }
      if from !in accounts {
        return Some(AccountNotFound);
      }
      if !accounts[from].active {
        return Some(AccountNotActive);
      }
      if accounts[from].balance < amount {
        return Some(InsufficientBalance);
      }
      return None;
    }

    /** The second transaction of `ProcessPayment`: two updates, committed together. */
    method MoveMoney(from: string, to: string, amount: int)
      modifies this`accounts
      ensures accounts == Moved(old(accounts), from, to, amount)
      ensures from != to ==> Pays(old(accounts), accounts, from, to, amount)
      ensures accounts == Apply(old(View([Ticket(from, to, amount)])), Pay(0)).accounts
    {
      if from in accounts {
        accounts := accounts[from := accounts[from].(balance := accounts[from].balance - amount)];
      }
      if to in accounts {
        accounts := accounts[to := accounts[to].(balance := accounts[to].balance + amount)];
      }
    }

    method CleanupExpiredCodes(now: int)
      modifies this`rows
      ensures rows == Cleaned(old(rows), now)
      ensures forall d :: d in rows
                <==> && d in old(rows) && now <= old(rows)[d].expiresAt
                     && (old(rows)[d].used ==> old(rows)[d].usedAt >= now - 86400)
      ensures forall d :: d in rows ==> rows[d] == old(rows)[d]
      ensures rows == Apply(old(View([])), Cleanup(now)).rows
    {
      rows := map d | d in rows && !(rows[d].expiresAt < now || (rows[d].used && rows[d].usedAt < now - DAY)) ::
        rows[d];
    }
  }

  // ---------- Runs over the table ----------

  /** History: rows inserted, rows consumed, and money moved. */
  datatype Event =
    | Issued(id: nat, digest: Digest, amount: int, expiresAt: int)
    | Consumed(row: nat, hash: Digest, worth: int, at: int)
    | Paid(payer: string, payee: string, moved: int)

  /** A payment that passed validation and has not moved its money yet. */
  datatype Ticket = Ticket(from: string, to: string, amount: int)

  datatype World = World(rows: Rows, accounts: map<string, Wallet>, nextId: nat, tickets: seq<Ticket>, log: seq<Event>)

  /** Each step is one committed database transaction; between validating and paying anything may happen. */
  datatype Step =
    | Issue(digest: Digest, codeType: string, user: string, amount: int, expiresAt: int)
    | Consume(hash: Digest, wanted: string, at: int)
    | Validate(key: Digest, kind: string, payer: string, sum: int, from: string, to: string, when: int)
    | Pay(ticket: nat)
    | Abandon(dropped: nat)
    | Cleanup(now: int)

  function Use(w: World, digest: Digest, now: int): World
    requires digest in w.rows
  {
    w.(rows := Marked(w.rows, digest, now),
       log := w.log + [Consumed(w.rows[digest].id, digest, w.rows[digest].amount, now)])
  }

  function Without(tickets: seq<Ticket>, k: nat): seq<Ticket>
    requires k < |tickets|
  {
    tickets[..k] + tickets[k + 1..]
  }

  function Apply(w: World, s: Step): World {
    match s
    case Issue(d, t, u, amount, expiresAt) =>
      if Storable(w.rows, d, t, amount)
      then w.(rows := w.rows[d := Row(w.nextId, t, u, amount, expiresAt, false, 0)], nextId := w.nextId + 1,
              log := w.log + [Issued(w.nextId, d, amount, expiresAt)])
      else w
    case Consume(d, t, now) => if Consumable(w.rows, d, t, now) then Use(w, d, now) else w
    case Validate(d, t, u, amount, from, to, now) =>
      if Consumable(w.rows, d, t, now) && w.rows[d].user == u && w.rows[d].amount == amount then
        var spent := Use(w, d, now);
        if AccountCheck(w.accounts, from, amount).None?
        then spent.(tickets := w.tickets + [Ticket(from, to, amount)])
        else spent
      else w
    case Pay(k) =>
      if k < |w.tickets|
      then w.(accounts := Moved(w.accounts, w.tickets[k].from, w.tickets[k].to, w.tickets[k].amount),
              tickets := Without(w.tickets, k),
                  log := w.log + [Paid(w.tickets[k].from, w.tickets[k].to, w.tickets[k].amount)])
      else w
    case Abandon(k) => if k < |w.tickets| then w.(tickets := Without(w.tickets, k)) else w
    case Cleanup(now) => w.(rows := Cleaned(w.rows, now))
  }

  function Run(w: World, steps: seq<Step>): World {
    if steps == [] then w else Apply(Run(w, steps[..|steps| - 1]), steps[|steps| - 1])
  }

  function Fresh(accounts: map<string, Wallet>): World {
    World(map[], accounts, 0, [], [])
  }

  // ---------- Counting ----------

  datatype Tally = RowConsumed(id: nat) | DigestIssued(digest: Digest) | DigestConsumed(digest: Digest)
                 | AmountIssued | AmountConsumed | AmountPaid | PaidBy(account: string) | PaidTo(account: string)
  {
    function Of(e: Event): int {
      match this
      case RowConsumed(id) => if e.Consumed? && e.row == id then 1 else 0
      case DigestIssued(d) => if e.Issued? && e.digest == d then 1 else 0
      case DigestConsumed(d) => if e.Consumed? && e.hash == d then 1 else 0
      case AmountIssued => if e.Issued? then e.amount else 0
      case AmountConsumed => if e.Consumed? then e.worth else 0
      case AmountPaid => if e.Paid? then e.moved else 0
      case PaidBy(a) => if e.Paid? && e.payer == a then e.moved else 0
      case PaidTo(a) => if e.Paid? && e.payee == a then e.moved else 0
    }

    function Over(log: seq<Event>): int {
      if log == [] then 0 else Over(log[..|log| - 1]) + Of(log[|log| - 1])
    }
  }

  lemma OverAppend(t: Tally, log: seq<Event>, e: Event)
    ensures t.Over(log + [e]) == t.Over(log) + t.Of(e)
  {
    assert (log + [e])[..|log|] == log;
  }

  function TicketTotal(tickets: seq<Ticket>): int {
    if tickets == [] then 0 else TicketTotal(tickets[..|tickets| - 1]) + tickets[|tickets| - 1].amount
  }

  lemma {:induction false} TicketConcat(xs: seq<Ticket>, ys: seq<Ticket>)
    ensures TicketTotal(xs + ys) == TicketTotal(xs) + TicketTotal(ys)
  {
    if ys == [] {
      assert xs + ys == xs;
    } else {
      var n := |ys| - 1;
      TicketConcat(xs, ys[..n]);
      assert (xs + ys)[..|xs| + n] == xs + ys[..n];
    }
  }

  lemma TicketOne(t: Ticket)
    ensures TicketTotal([t]) == t.amount
  {
    assert [t][..0] == [];
  }

  lemma TicketMiddle(front: seq<Ticket>, t: Ticket, back: seq<Ticket>)
    ensures TicketTotal(front + [t] + back) == TicketTotal(front + back) + t.amount
  {
    TicketConcat(front, back);
    TicketOne(t);
    TicketConcat(front, [t]);
    TicketConcat(front + [t], back);
  }

  lemma TicketGone(tickets: seq<Ticket>, k: nat)
    requires k < |tickets|
    ensures TicketTotal(Without(tickets, k)) == TicketTotal(tickets) - tickets[k].amount
  {
    var front, back := tickets[..k], tickets[k + 1..];
    Reassembled(tickets, k);
    TicketMiddle(front, tickets[k], back);
  }

  lemma Reassembled(tickets: seq<Ticket>, k: nat)
    requires k < |tickets|
    ensures tickets == tickets[..k] + [tickets[k]] + tickets[k + 1..]
  {
  }

  /** What the unused rows are worth. */
  function Unused(rows: Rows): map<string, int> {
    map d | d in rows && !rows[d].used :: rows[d].amount
  }

  // ---------- The invariant ----------

  ghost predicate RowOk(w: World, d: Digest)
    requires d in w.rows
  {
    var r := w.rows[d];
    && r.id < w.nextId && r.amount > 0
    && Issued(r.id, d, r.amount, r.expiresAt) in w.log
    && RowConsumed(r.id).Over(w.log) == if r.used then 1 else 0
  }

  /** `i` consumed a row that was issued earlier, under the same digest and amount, and not past its expiry. */
  ghost predicate UseOk(log: seq<Event>, i: nat)
    requires i < |log|
  {
    log[i].Consumed? ==>
      exists j :: 0 <= j < i && log[j].Issued? && log[j].id == log[i].row && log[j].digest == log[i].hash
                  && log[j].amount == log[i].worth && log[i].at <= log[j].expiresAt
  }

  ghost predicate RowsOk(w: World) {
    && (forall d :: d in w.rows ==> RowOk(w, d))
    && (forall d, e :: d in w.rows && e in w.rows && d != e ==> w.rows[d].id != w.rows[e].id)
    && (forall id: nat :: id >= w.nextId ==> RowConsumed(id).Over(w.log) == 0)
    && (forall id: nat :: RowConsumed(id).Over(w.log) <= 1)
  }

  ghost predicate UsesOk(log: seq<Event>) {
    forall i :: 0 <= i < |log| ==> UseOk(log, i)
  }

  ghost predicate CountsOk(w: World) {
    forall d :: CountOk(w, d)
  }

  /** A digest is consumed at most as often as rows were issued with it, less the one still unused. */
  ghost predicate CountOk(w: World, d: Digest) {
    DigestConsumed(d).Over(w.log) + (if d in w.rows && !w.rows[d].used then 1 else 0) <= DigestIssued(d).Over(w.log)
  }

  ghost predicate MoneyOk(w: World) {
    && AmountConsumed.Over(w.log) + SumOf(Unused(w.rows)) <= AmountIssued.Over(w.log)
    && AmountPaid.Over(w.log) + TicketTotal(w.tickets) <= AmountConsumed.Over(w.log)
    && (forall t :: t in w.tickets ==> t.amount > 0)
  }

  ghost predicate Inv(w: World) {
    RowsOk(w) && UsesOk(w.log) && CountsOk(w) && MoneyOk(w)
  }

  lemma UsesKept(log: seq<Event>, e: Event)
    requires UsesOk(log)
    requires e.Consumed?
             ==> exists j :: 0 <= j < |log| && log[j].Issued? && log[j].id == e.row && log[j].digest == e.hash
                                         && log[j].amount == e.worth && e.at <= log[j].expiresAt
    ensures UsesOk(log + [e])
  {
    var more := log + [e];
    forall i | 0 <= i < |more| ensures UseOk(more, i) {
      if i < |log| {
        assert UseOk(log, i);
        if log[i].Consumed? {
          var j :| 0 <= j < i && log[j].Issued? && log[j].id == log[i].row && log[j].digest == log[i].hash
                   && log[j].amount == log[i].worth && log[i].at <= log[j].expiresAt;
          assert more[j] == log[j];
        }
      } else if e.Consumed? {
        var j :| 0 <= j < |log| && log[j].Issued? && log[j].id == e.row && log[j].digest == e.hash
                 && log[j].amount == e.worth && e.at <= log[j].expiresAt;
        assert more[j] == log[j];
      }
    }
  }

  /** An event that consumes nothing leaves every row's tally and record in place. */
  lemma RowsKept(w: World, e: Event)
    requires RowsOk(w) && !e.Consumed?
    ensures RowsOk(w.(log := w.log + [e]))
  {
    var w' := w.(log := w.log + [e]);
    forall id: nat ensures RowConsumed(id).Over(w'.log) == RowConsumed(id).Over(w.log) {
      OverAppend(RowConsumed(id), w.log, e);
    }
    forall d | d in w.rows ensures RowOk(w', d) {
      assert RowOk(w, d);
    }
  }

  lemma IssueRows(w: World, digest: Digest, row: Row)
    requires RowsOk(w) && row.id == w.nextId && row.amount > 0 && !row.used
    requires Issued(row.id, digest, row.amount, row.expiresAt) in w.log
    ensures RowsOk(w.(rows := w.rows[digest := row], nextId := w.nextId + 1))
  {
    var w' := w.(rows := w.rows[digest := row], nextId := w.nextId + 1);
    assert forall d :: d in w.rows ==> RowOk(w, d);
    forall d | d in w'.rows ensures RowOk(w', d) {
    }
  }

  lemma UnusedIssued(rows: Rows, digest: Digest, row: Row)
    requires digest !in rows && !row.used
    ensures SumOf(Unused(rows[digest := row])) == SumOf(Unused(rows)) + row.amount
  {
    SumPut(Unused(rows), digest, row.amount);
    assert Unused(rows[digest := row]) == Unused(rows)[digest := row.amount];
  }

  lemma UnusedMarked(rows: Rows, digest: Digest, now: int)
    requires digest in rows && !rows[digest].used
    ensures SumOf(Unused(Marked(rows, digest, now))) == SumOf(Unused(rows)) - rows[digest].amount
  {
    SumSplit(Unused(rows), digest);
    assert Unused(Marked(rows, digest, now)) == Unused(rows) - {digest};
  }

  lemma AmountsAfter(log: seq<Event>, e: Event)
    ensures AmountIssued.Over(log + [e]) == AmountIssued.Over(log) + if e.Issued? then e.amount else 0
    ensures AmountConsumed.Over(log + [e]) == AmountConsumed.Over(log) + if e.Consumed? then e.worth else 0
    ensures AmountPaid.Over(log + [e]) == AmountPaid.Over(log) + if e.Paid? then e.moved else 0
  {
    OverAppend(AmountIssued, log, e);
    OverAppend(AmountConsumed, log, e);
    OverAppend(AmountPaid, log, e);
  }

  lemma DigestsAfter(log: seq<Event>, e: Event, d: Digest)
    ensures DigestIssued(d).Over(log + [e]) == DigestIssued(d).Over(log) + if e.Issued? && e.digest == d then 1 else 0
    ensures DigestConsumed(d).Over(log + [e])
            == DigestConsumed(d).Over(log) + if e.Consumed? && e.hash == d then 1 else 0
  {
    OverAppend(DigestIssued(d), log, e);
    OverAppend(DigestConsumed(d), log, e);
  }

  lemma IssueMoney(w: World, w': World, e: Event, digest: Digest, row: Row)
    requires MoneyOk(w) && digest !in w.rows && !row.used && e.Issued? && e.amount == row.amount
    requires w'.rows == w.rows[digest := row] && w'.log == w.log + [e] && w'.tickets == w.tickets
    ensures MoneyOk(w')
  {
    AmountsAfter(w.log, e);
    UnusedIssued(w.rows, digest, row);
  }

  lemma IssueCounts(w: World, w': World, e: Event, digest: Digest, row: Row)
    requires CountsOk(w) && digest !in w.rows && e.Issued? && e.digest == digest
    requires w'.rows == w.rows[digest := row] && w'.log == w.log + [e]
    ensures CountsOk(w')
  {
    forall d ensures CountOk(w', d) {
      assert CountOk(w, d);
      DigestsAfter(w.log, e, d);
    }
  }

  lemma IssueKeeps(w: World, s: Step)
    requires Inv(w) && s.Issue? && Storable(w.rows, s.digest, s.codeType, s.amount)
    ensures Inv(Apply(w, s))
  {
    var w', e := Apply(w, s), Issued(w.nextId, s.digest, s.amount, s.expiresAt);
    var row := Row(w.nextId, s.codeType, s.user, s.amount, s.expiresAt, false, 0);
    RowsKept(w, e);
    IssueRows(w.(log := w.log + [e]), s.digest, row);
    UsesKept(w.log, e);
    IssueCounts(w, w', e, s.digest, row);
    IssueMoney(w, w', e, s.digest, row);
  }

  lemma UseRows(w: World, digest: Digest, now: int)
    requires RowsOk(w) && digest in w.rows && !w.rows[digest].used
    ensures RowsOk(Use(w, digest, now))
  {
    var w', id := Use(w, digest, now), w.rows[digest].id;
    var e := Consumed(id, digest, w.rows[digest].amount, now);
    assert RowOk(w, digest);
    forall i: nat ensures RowConsumed(i).Over(w'.log) == RowConsumed(i).Over(w.log) + if i == id then 1 else 0 {
      OverAppend(RowConsumed(i), w.log, e);
    }
    forall d | d in w'.rows ensures RowOk(w', d) {
      assert RowOk(w, d);
    }
  }

  lemma UseUses(w: World, digest: Digest, now: int)
    requires RowsOk(w) && UsesOk(w.log) && digest in w.rows && now <= w.rows[digest].expiresAt
    ensures UsesOk(Use(w, digest, now).log)
  {
    var row := w.rows[digest];
    assert RowOk(w, digest);
    var j :| 0 <= j < |w.log| && w.log[j] == Issued(row.id, digest, row.amount, row.expiresAt);
    UsesKept(w.log, Consumed(row.id, digest, row.amount, now));
  }

  lemma UseCounts(w: World, digest: Digest, now: int)
    requires CountsOk(w) && digest in w.rows && !w.rows[digest].used
    ensures CountsOk(Use(w, digest, now))
  {
    var w', row := Use(w, digest, now), w.rows[digest];
    var e := Consumed(row.id, digest, row.amount, now);
    forall d ensures CountOk(w', d) {
      assert CountOk(w, d);
      DigestsAfter(w.log, e, d);
    }
  }

  lemma UseMoney(w: World, digest: Digest, now: int)
    requires digest in w.rows && !w.rows[digest].used
    ensures var w' := Use(w, digest, now);
            && AmountConsumed.Over(w'.log) == AmountConsumed.Over(w.log) + w.rows[digest].amount
            && AmountPaid.Over(w'.log) == AmountPaid.Over(w.log)
            && AmountIssued.Over(w'.log) == AmountIssued.Over(w.log)
            && SumOf(Unused(w'.rows)) == SumOf(Unused(w.rows)) - w.rows[digest].amount
  {
    AmountsAfter(w.log, Consumed(w.rows[digest].id, digest, w.rows[digest].amount, now));
    UnusedMarked(w.rows, digest, now);
  }

  lemma UseKeeps(w: World, digest: Digest, codeType: string, now: int)
    requires Inv(w) && Consumable(w.rows, digest, codeType, now)
    ensures var w' := Use(w, digest, now);
            && Inv(w') && AmountConsumed.Over(w'.log) == AmountConsumed.Over(w.log) + w.rows[digest].amount
            && AmountPaid.Over(w'.log) == AmountPaid.Over(w.log)
  {
    assert RowOk(w, digest);
    UseRows(w, digest, now);
    UseUses(w, digest, now);
    UseCounts(w, digest, now);
    UseMoney(w, digest, now);
  }

  lemma CleanupKeeps(w: World, now: int)
    requires Inv(w)
    ensures Inv(Apply(w, Cleanup(now)))
  {
    var w' := Apply(w, Cleanup(now));
    forall d | d in w.rows ensures w.rows[d].amount >= 0 {
      assert RowOk(w, d);
    }
    SumOfPart(Unused(w'.rows), Unused(w.rows));
    forall d ensures CountOk(w', d) {
      assert CountOk(w, d);
    }
    forall d | d in w'.rows ensures RowOk(w', d) {
      assert RowOk(w, d);
    }
  }

  lemma PayKeeps(w: World, k: nat)
    requires Inv(w) && k < |w.tickets|
    ensures Inv(Apply(w, Pay(k))) && Inv(Apply(w, Abandon(k)))
  {
    var e := Paid(w.tickets[k].from, w.tickets[k].to, w.tickets[k].amount);
    TicketGone(w.tickets, k);
    assert w.tickets[k].amount > 0;
    RowsKept(w, e);
    RowsAside(w.(log := w.log + [e]), Apply(w, Pay(k)));
    RowsAside(w, Apply(w, Abandon(k)));
    UsesKept(w.log, e);
    forall d ensures CountOk(Apply(w, Pay(k)), d) && CountOk(Apply(w, Abandon(k)), d) {
      assert CountOk(w, d);
      DigestsAfter(w.log, e, d);
    }
    AmountsAfter(w.log, e);
  }

  lemma RowsAside(w: World, w': World)
    requires RowsOk(w) && w'.rows == w.rows && w'.nextId == w.nextId && w'.log == w.log
    ensures RowsOk(w') && (CountsOk(w) ==> CountsOk(w'))
  {
    if CountsOk(w) {
      forall d ensures CountOk(w', d) {
        assert CountOk(w, d);
      }
    }
    forall d | d in w'.rows ensures RowOk(w', d) {
      assert RowOk(w, d);
    }
  }

  lemma ValidateKeeps(w: World, s: Step)
    requires Inv(w) && s.Validate?
    ensures Inv(Apply(w, s))
  {
    if Consumable(w.rows, s.key, s.kind, s.when) && w.rows[s.key].user == s.payer && w.rows[s.key].amount == s.sum {
      UseKeeps(w, s.key, s.kind, s.when);
      var spent := Use(w, s.key, s.when);
      if AccountCheck(w.accounts, s.from, s.sum).None? {
        var more := w.tickets + [Ticket(s.from, s.to, s.sum)];
        assert more[..|w.tickets|] == w.tickets;
        RowsAside(spent, spent.(tickets := more));
      }
    }
  }

  lemma ApplyKeeps(w: World, s: Step)
    requires Inv(w)
    ensures Inv(Apply(w, s))
  {
    match s
    case Issue(d, t, _, amount, _) => if Storable(w.rows, d, t, amount) { IssueKeeps(w, s); }
    case Consume(d, t, now) => if Consumable(w.rows, d, t, now) { UseKeeps(w, d, t, now); }
    case Validate(_, _, _, _, _, _, _) => ValidateKeeps(w, s);
    case Pay(k) => if k < |w.tickets| { PayKeeps(w, k); }
    case Abandon(k) => if k < |w.tickets| { PayKeeps(w, k); }
    case Cleanup(now) => CleanupKeeps(w, now);
  }

  lemma {:induction false} RunKeeps(accounts: map<string, Wallet>, steps: seq<Step>)
    ensures Inv(Run(Fresh(accounts), steps))
  {
    if steps == [] {
      assert Unused(map[]) == map[];
    } else {
      RunKeeps(accounts, steps[..|steps| - 1]);
      ApplyKeeps(Run(Fresh(accounts), steps[..|steps| - 1]), steps[|steps| - 1]);
    }
  }

  // ---------- What every run guarantees ----------

  /**
   One-time use. Every row is consumed at most once, after it was issued, under
   its own digest and amount, and not after its expiry; a digest is consumed at
   most as often as rows were issued with it.
   */
  lemma OneTimeCodes(accounts: map<string, Wallet>, steps: seq<Step>)
    ensures var w := Run(Fresh(accounts), steps);
            && (forall id: nat :: RowConsumed(id).Over(w.log) <= 1)
            && (forall i :: 0 <= i < |w.log| ==> UseOk(w.log, i))
            && (forall d :: DigestConsumed(d).Over(w.log) <= DigestIssued(d).Over(w.log))
  {
    RunKeeps(accounts, steps);
    var w := Run(Fresh(accounts), steps);
    forall d ensures DigestConsumed(d).Over(w.log) <= DigestIssued(d).Over(w.log) {
      assert CountOk(w, d);
    }
  }

  /** The money moved by completed payments never exceeds what codes were issued for. */
  lemma PaidAtMostIssued(accounts: map<string, Wallet>, steps: seq<Step>)
    ensures var w := Run(Fresh(accounts), steps);
            AmountPaid.Over(w.log) <= AmountConsumed.Over(w.log) <= AmountIssued.Over(w.log)
  {
    RunKeeps(accounts, steps);
    var w := Run(Fresh(accounts), steps);
    forall k | k in Unused(w.rows) ensures Unused(w.rows)[k] >= 0 {
      assert RowOk(w, k);
    }
    SumOfPart(map[], Unused(w.rows));
    TicketsNonNegative(w.tickets);
  }

  lemma {:induction false} TicketsNonNegative(tickets: seq<Ticket>)
    requires forall t :: t in tickets ==> t.amount > 0
    ensures TicketTotal(tickets) >= 0
  {
    if tickets != [] {
      assert tickets[|tickets| - 1] in tickets;
      TicketsNonNegative(tickets[..|tickets| - 1]);
    }
  }

  /** Where digest `d` still maps to the row that `row` was, that row is unchanged; ids are not given twice. */
  predicate StillUsed(w: World, d: Digest, row: Row) {
    row.id < w.nextId && (d in w.rows && w.rows[d].id == row.id ==> w.rows[d] == row)
  }

  lemma StepKeepsUsed(w: World, s: Step, d: Digest, row: Row)
    requires row.used && StillUsed(w, d, row)
    ensures StillUsed(Apply(w, s), d, row)
  {
  }

  lemma {:induction false} RunKeepsUsed(w: World, steps: seq<Step>, d: Digest, row: Row)
    requires row.used && StillUsed(w, d, row)
    ensures StillUsed(Run(w, steps), d, row)
  {
    if steps != [] {
      RunKeepsUsed(w, steps[..|steps| - 1], d, row);
      StepKeepsUsed(Run(w, steps[..|steps| - 1]), steps[|steps| - 1], d, row);
    }
  }

  /**
   A used row never becomes unused again, over any further run: it stays exactly as it was
   until cleanup removes it.
   */
  lemma UsedStaysUsed(accounts: map<string, Wallet>, before: seq<Step>, after: seq<Step>, d: Digest)
    requires d in Run(Fresh(accounts), before).rows && Run(Fresh(accounts), before).rows[d].used
    ensures var row := Run(Fresh(accounts), before).rows[d];
            var later := Run(Run(Fresh(accounts), before), after).rows;
            d in later && later[d].id == row.id ==> later[d] == row
  {
    var w := Run(Fresh(accounts), before);
    RunKeeps(accounts, before);
    assert RowOk(w, d);
    RunKeepsUsed(w, after, d, w.rows[d]);
  }

  // ---------- Wallets ----------

  /** The wallet holds its opening balance, less what it has paid, plus what was paid to it. */
  predicate WalletAgrees(opening: Wallet, now: Wallet, log: seq<Event>, a: string) {
    now.active == opening.active && now.balance == opening.balance - PaidBy(a).Over(log) + PaidTo(a).Over(log)
  }

  ghost predicate WalletsAgree(opening: map<string, Wallet>, w: World) {
    && w.accounts.Keys == opening.Keys
    && forall a :: a in opening ==> WalletAgrees(opening[a], w.accounts[a], w.log, a)
  }

  lemma SidesAfter(log: seq<Event>, e: Event, a: string)
    ensures PaidBy(a).Over(log + [e]) == PaidBy(a).Over(log) + if e.Paid? && e.payer == a then e.moved else 0
    ensures PaidTo(a).Over(log + [e]) == PaidTo(a).Over(log) + if e.Paid? && e.payee == a then e.moved else 0
  {
    OverAppend(PaidBy(a), log, e);
    OverAppend(PaidTo(a), log, e);
  }

  lemma {:induction false} MovedBalance(accounts: map<string, Wallet>, from: string, to: string, amount: int, a: string)
    requires a in accounts
    ensures var after := Moved(accounts, from, to, amount);
            && a in after && after[a].active == accounts[a].active
            && after[a].balance == accounts[a].balance - (if a == from then amount else 0) + if a == to then amount
                else 0
  {
  }

  lemma {:induction false} OneWallet(opening: Wallet, accounts: map<string, Wallet>, log: seq<Event>, t: Ticket,
                                     a: string)
    requires a in accounts && WalletAgrees(opening, accounts[a], log, a)
    ensures var after := Moved(accounts, t.from, t.to, t.amount);
            a in after && WalletAgrees(opening, after[a], log + [Paid(t.from, t.to, t.amount)], a)
  {
    MovedBalance(accounts, t.from, t.to, t.amount, a);
    SidesAfter(log, Paid(t.from, t.to, t.amount), a);
  }

  lemma {:induction false} PayKeepsWallets(opening: map<string, Wallet>, w: World, k: nat)
    requires WalletsAgree(opening, w) && k < |w.tickets|
    ensures WalletsAgree(opening, Apply(w, Pay(k)))
  {
    forall a | a in opening
      ensures a in Apply(w, Pay(k)).accounts
      ensures WalletAgrees(opening[a], Apply(w, Pay(k)).accounts[a], Apply(w, Pay(k)).log, a)
    {
      OneWallet(opening[a], w.accounts, w.log, w.tickets[k], a);
    }
    assert Moved(w.accounts, w.tickets[k].from, w.tickets[k].to, w.tickets[k].amount).Keys == w.accounts.Keys;
  }

  /** A step adds at most one line of history, of its own kind. */
  lemma {:induction false} HistoryGrows(w: World, s: Step) returns (added: seq<Event>)
    ensures Apply(w, s).log == w.log + added && |added| <= 1
    ensures added != [] && s.Issue? ==> added[0].Issued? && added[0].digest == s.digest
    ensures added != [] && s.Consume? ==> added[0].Consumed? && added[0].hash == s.hash
    ensures added != [] && s.Validate? ==> added[0].Consumed? && added[0].hash == s.key
    ensures added != [] && s.Pay? ==> added[0].Paid?
    ensures s.Abandon? || s.Cleanup? ==> added == []
  {
    added := [];
    match s
    case Issue(d, t, _, amount, expiresAt) =>
      if Storable(w.rows, d, t, amount) {
        added := [Issued(w.nextId, d, amount, expiresAt)];
      }
    case Consume(d, t, now) =>
      if Consumable(w.rows, d, t, now) {
        added := [Consumed(w.rows[d].id, d, w.rows[d].amount, now)];
      }
    case Validate(d, t, u, amount, _, _, now) =>
      if Consumable(w.rows, d, t, now) && w.rows[d].user == u && w.rows[d].amount == amount {
        added := [Consumed(w.rows[d].id, d, w.rows[d].amount, now)];
      }
    case Pay(k) =>
      if k < |w.tickets| {
        added := [Paid(w.tickets[k].from, w.tickets[k].to, w.tickets[k].amount)];
      }
    case Abandon(_) =>
    case Cleanup(_) =>
    assert w.log + [] == w.log;
  }

  lemma {:induction false} OthersKeepWallets(opening: map<string, Wallet>, w: World, s: Step)
    requires WalletsAgree(opening, w) && !s.Pay?
    ensures WalletsAgree(opening, Apply(w, s))
  {
    var added := HistoryGrows(w, s);
    assert Apply(w, s).accounts == w.accounts;
    if added != [] {
      assert added == [added[0]] && !added[0].Paid?;
      forall a ensures PaidBy(a).Over(Apply(w, s).log) == PaidBy(a).Over(w.log) {
        SidesAfter(w.log, added[0], a);
      }
      forall a ensures PaidTo(a).Over(Apply(w, s).log) == PaidTo(a).Over(w.log) {
        SidesAfter(w.log, added[0], a);
      }
    } else {
      assert w.log + [] == w.log;
    }
  }

  lemma StepKeepsWallets(opening: map<string, Wallet>, w: World, s: Step)
    requires WalletsAgree(opening, w)
    ensures WalletsAgree(opening, Apply(w, s))
  {
    match s
    case Pay(k) =>
      if k < |w.tickets| {
        PayKeepsWallets(opening, w, k);
      }
    case _ =>
      OthersKeepWallets(opening, w, s);
  }

  /** Over every run each wallet is its opening balance, plus what was paid to it, minus what it has paid. */
  lemma {:induction false} WalletsAddUp(opening: map<string, Wallet>, steps: seq<Step>)
    ensures WalletsAgree(opening, Run(Fresh(opening), steps))
  {
    if steps != [] {
      WalletsAddUp(opening, steps[..|steps| - 1]);
      StepKeepsWallets(opening, Run(Fresh(opening), steps[..|steps| - 1]), steps[|steps| - 1]);
    }
  }

  predicate Validates(s: Step, from: string, to: string, amount: int) {
    s.Validate? && s.from == from && s.to == to && s.sum == amount
  }

  ghost predicate AsValidated(w: World, steps: seq<Step>) {
    && (forall t :: t in w.tickets ==> exists s :: s in steps && Validates(s, t.from, t.to, t.amount))
    && (forall e :: e in w.log && e.Paid? ==> exists s :: s in steps && Validates(s, e.payer, e.payee, e.moved))
  }

  /** Whatever was paid was validated, with the same payer, payee and amount. */
  lemma {:induction false} PaidAsValidated(accounts: map<string, Wallet>, steps: seq<Step>)
    ensures AsValidated(Run(Fresh(accounts), steps), steps)
  {
    if steps != [] {
      var front, last := steps[..|steps| - 1], steps[|steps| - 1];
      PaidAsValidated(accounts, front);
      assert forall s :: s in front ==> s in steps;
      assert last in steps;
      StepAsValidated(Run(Fresh(accounts), front), last, front, steps);
    }
  }

  lemma {:induction false} StepAsValidated(w: World, last: Step, front: seq<Step>, steps: seq<Step>)
    requires AsValidated(w, front) && (forall s :: s in front ==> s in steps) && last in steps
    ensures AsValidated(Apply(w, last), steps)
  {
    var w' := Apply(w, last);
    var added := HistoryGrows(w, last);
    forall t | t in w'.tickets ensures exists s :: s in steps && Validates(s, t.from, t.to, t.amount) {
      if t in w.tickets {
        var s :| s in front && Validates(s, t.from, t.to, t.amount);
      } else {
        assert Validates(last, t.from, t.to, t.amount);
      }
    }
    forall e | e in w'.log && e.Paid? ensures exists s :: s in steps && Validates(s, e.payer, e.payee, e.moved) {
      if e in w.log {
        var s :| s in front && Validates(s, e.payer, e.payee, e.moved);
      } else {
        var t := w.tickets[last.ticket];
        assert t in w.tickets && e == Paid(t.from, t.to, t.amount);
        var s :| s in front && Validates(s, t.from, t.to, t.amount);
      }
    }
  }

  // ---------- A code that nobody spends ----------

  /** The step neither spends `d` nor cleans up after the instant `until`. */
  predicate LeavesAlone(s: Step, d: Digest, until: int) {
    match s
    case Consume(hash, _, _) => hash != d
    case Validate(key, _, _, _, _, _, _) => key != d
    case Cleanup(now) => now <= until
    case _ => true
  }

  /** An unused code stays as it was issued, whatever else happens, until it is spent or has expired. */
  lemma {:induction false} UnspentStays(w: World, steps: seq<Step>, d: Digest)
    requires d in w.rows && !w.rows[d].used
    requires forall s :: s in steps ==> LeavesAlone(s, d, w.rows[d].expiresAt)
    ensures d in Run(w, steps).rows && Run(w, steps).rows[d] == w.rows[d]
  {
    if steps != [] {
      var s := steps[|steps| - 1];
      assert s in steps;
      UnspentStays(w, steps[..|steps| - 1], d);
      assert LeavesAlone(s, d, w.rows[d].expiresAt);
    }
  }

  function Balances(accounts: map<string, Wallet>): map<string, int> {
    map a | a in accounts :: accounts[a].balance
  }

  /** A payment conserves the wallets' total exactly when its beneficiary is a local account. */
  lemma PaymentConserves(accounts: map<string, Wallet>, from: string, to: string, amount: int)
    requires from in accounts && amount > 0
    ensures SumOf(Balances(Moved(accounts, from, to, amount))) == SumOf(Balances(accounts)) <==> to in accounts
  {
    AdjustedTotal(accounts, from, -amount);
    AdjustedTotal(Adjusted(accounts, from, -amount), to, amount);
  }

  lemma AdjustedTotal(accounts: map<string, Wallet>, id: string, delta: int)
    ensures SumOf(Balances(Adjusted(accounts, id, delta)))
            == SumOf(Balances(accounts)) + if id in accounts then delta else 0
  {
    if id in accounts {
      SumPut(Balances(accounts), id, accounts[id].balance + delta);
      assert Balances(Adjusted(accounts, id, delta)) == Balances(accounts)[id := accounts[id].balance + delta];
    }
  }

  // ---------- Codes rather than digests ----------

  /** The same steps as callers see them, with the code itself. */
  datatype CodeStep =
    | IssueCode(code: string, codeType: string, user: string, amount: int, expiresAt: int)
    | ConsumeCode(spent: string, wanted: string, at: int)
    | ValidateCode(used: string, kind: string, payer: string, sum: int, from: string, to: string, when: int)
    | Other(step: Step)

  /** The service hashes with its configured count, the provider with its own. */
  function Hashed(sha: string -> string, service: int, provider: int, c: CodeStep): Step {
    match c
    case IssueCode(code, t, u, amount, e) => Issue(Iterate(sha, code, Rounds(service)), t, u, amount, e)
    case ConsumeCode(code, t, at) => Consume(Iterate(sha, code, Rounds(service)), t, at)
    case ValidateCode(code, k, p, sum, f, t, when) =>
      Validate(Iterate(sha, code, Rounds(provider)), k, p, sum, f, t, when)
    case Other(s) => if s.Issue? || s.Consume? || s.Validate? then Abandon(0) else s
  }

  function HashedAll(sha: string -> string, service: int, provider: int, cs: seq<CodeStep>): seq<Step> {
    if cs == [] then []
    else HashedAll(sha, service, provider, cs[..|cs| - 1]) + [Hashed(sha, service, provider, cs[|cs| - 1])]
  }

  /** How often `code` was successfully consumed, by either path. */
  function Spends(sha: string -> string, service: int, provider: int, accounts: map<string, Wallet>,
                  cs: seq<CodeStep>, code: string): nat {
    if cs == [] then 0
    else
      var before, c := cs[..|cs| - 1], cs[|cs| - 1];
      var w := Run(Fresh(accounts), HashedAll(sha, service, provider, before));
      Spends(sha, service, provider, accounts, before, code)
      + if ((c.ConsumeCode? && c.spent == code) || (c.ValidateCode? && c.used == code))
           && |Apply(w, Hashed(sha, service, provider, c)).log| > |w.log| then 1 else 0
  }

  /** How often a row was stored for `code`. */
  function Stores(sha: string -> string, service: int, provider: int, accounts: map<string, Wallet>,
                  cs: seq<CodeStep>, code: string): nat {
    if cs == [] then 0
    else
      var before, c := cs[..|cs| - 1], cs[|cs| - 1];
      var w := Run(Fresh(accounts), HashedAll(sha, service, provider, before));
      Stores(sha, service, provider, accounts, before, code)
      + if c.IssueCode? && c.code == code && |Apply(w, Hashed(sha, service, provider, c)).log| > |w.log| then 1 else 0
  }

  function CodeOf(c: CodeStep): Option<string> {
    match c
    case IssueCode(code, _, _, _, _) => Some(code)
    case ConsumeCode(code, _, _) => Some(code)
    case ValidateCode(code, _, _, _, _, _, _) => Some(code)
    case Other(_) => None
  }

  predicate Separate(sha: string -> string, n: int, c: CodeStep, code: string) {
    CodeOf(c).Some? && Iterate(sha, CodeOf(c).value, Rounds(n)) == Iterate(sha, code, Rounds(n))
    ==> CodeOf(c).value == code
  }

  /** No step uses another code with the same digest as `code`. */
  predicate NoCollision(sha: string -> string, n: int, cs: seq<CodeStep>, code: string) {
    forall c :: c in cs ==> Separate(sha, n, c, code)
  }

  /** A step writes at most one line of history. */
  lemma {:induction false} OneEvent(w: World, s: Step, d: Digest)
    ensures var grew := |Apply(w, s).log| > |w.log|;
            && DigestConsumed(d).Over(Apply(w, s).log) == DigestConsumed(d).Over(w.log)
                 + (if grew && ((s.Consume? && s.hash == d) || (s.Validate? && s.key == d)) then 1 else 0)
            && DigestIssued(d).Over(Apply(w, s).log) == DigestIssued(d).Over(w.log)
                 + (if grew && s.Issue? && s.digest == d then 1 else 0)
  {
    var added := HistoryGrows(w, s);
    if added != [] {
      DigestsAfter(w.log, added[0], d);
      assert added == [added[0]];
    } else {
      assert w.log + [] == w.log;
    }
  }

  lemma {:induction false} StepTallies(w: World, sha: string -> string, n: int, c: CodeStep, code: string)
    requires Separate(sha, n, c, code)
    ensures var d := Iterate(sha, code, Rounds(n));
            var log' := Apply(w, Hashed(sha, n, n, c)).log;
            && DigestConsumed(d).Over(log') == DigestConsumed(d).Over(w.log)
                 + (if ((c.ConsumeCode? && c.spent == code) || (c.ValidateCode? && c.used == code)) && |log'| > |w.log|
                    then 1 else 0)
            && DigestIssued(d).Over(log') == DigestIssued(d).Over(w.log)
                 + (if c.IssueCode? && c.code == code && |log'| > |w.log| then 1 else 0)
  {
    OneEvent(w, Hashed(sha, n, n, c), Iterate(sha, code, Rounds(n)));
  }

  lemma {:induction false} CodeTallies(sha: string -> string, n: int, accounts: map<string, Wallet>,
                                       cs: seq<CodeStep>, code: string)
    requires NoCollision(sha, n, cs, code)
    ensures var d := Iterate(sha, code, Rounds(n));
            var log := Run(Fresh(accounts), HashedAll(sha, n, n, cs)).log;
            && Spends(sha, n, n, accounts, cs, code) == DigestConsumed(d).Over(log)
            && Stores(sha, n, n, accounts, cs, code) == DigestIssued(d).Over(log)
  {
    if cs != [] {
      var before, c := cs[..|cs| - 1], cs[|cs| - 1];
      assert c in cs;
      CodeTallies(sha, n, accounts, before, code);
      var steps := HashedAll(sha, n, n, before);
      assert HashedAll(sha, n, n, cs)[..|steps|] == steps;
      StepTallies(Run(Fresh(accounts), steps), sha, n, c, code);
    }
  }

  /** When both iterate the hash `n` times and no digest collides, a code is spent at most as often as it was issued. */
  lemma CodeSpentAtMostIssued(sha: string -> string, n: int, accounts: map<string, Wallet>,
                              cs: seq<CodeStep>, code: string)
    requires NoCollision(sha, n, cs, code)
    ensures Spends(sha, n, n, accounts, cs, code) <= Stores(sha, n, n, accounts, cs, code)
  {
    CodeTallies(sha, n, accounts, cs, code);
    OneTimeCodes(accounts, HashedAll(sha, n, n, cs));
  }
}
