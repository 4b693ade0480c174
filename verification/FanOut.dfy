/**
 The balance enquiry: one worker per external account sends its result into a
 shared buffered channel, one collector drains it into a map, and the response
 is built from the map.
 */
module FanOut {
  import opened Common

  datatype Account = Account(id: string, name: string, dbBalance: string, status: string, isPrimary: bool,
                             bankName: string, bankCode: string, bvn: string, mandateCode: string)

  datatype NipResult = NipResult(id: string, balance: string, success: bool)

  datatype NipBalance = NipBalance(balance: string, success: bool)

  datatype Entry = Entry(id: string, name: string, status: string, isPrimary: bool, bankName: string, bankCode: string,
                         availableBalance: string, balanceAvailable: bool)

  /** The accounts, and what each account's own enquiry will answer: a balance, or nothing if it fails. */
  datatype World = World(accts: seq<Account>, answers: seq<Option<string>>)

  predicate Valid(w: World) {
    |w.accts| == |w.answers|
  }

  predicate External(a: Account) {
    a.bankCode != "" && a.id != ""
  }

  function ResultOf(a: Account, answer: Option<string>): NipResult {
    match answer
    case None => NipResult(a.id, "", false)
    case Some(balance) => NipResult(a.id, balance, true)
  }

  // ---------- The loops ----------

  function Merged(results: seq<NipResult>): map<string, NipBalance> {
    if results == [] then map[]
    else
      var r := results[|results| - 1];
      Merged(results[..|results| - 1])[r.id := NipBalance(r.balance, r.success)]
  }

  /** The map holds the ids that arrived, each with the last result that arrived for it. */
  predicate Holds(balances: map<string, NipBalance>, arrivals: seq<NipResult>) {
    && (forall r :: r in arrivals ==> r.id in balances)
    && (forall id :: id in balances ==> exists r :: r in arrivals && r.id == id)
    && forall i :: 0 <= i < |arrivals| && (forall j :: i < j < |arrivals| ==> arrivals[j].id != arrivals[i].id)
         ==> arrivals[i].id in balances
             && balances[arrivals[i].id] == NipBalance(arrivals[i].balance, arrivals[i].success)
  }

  lemma {:induction false} MergedHolds(arrivals: seq<NipResult>)
    ensures Holds(Merged(arrivals), arrivals)
  {
    if arrivals != [] {
      var n := |arrivals| - 1;
      var front, last := arrivals[..n], arrivals[n];
      MergedHolds(front);
      assert arrivals == front + [last];
      forall i | 0 <= i < |arrivals| && (forall j :: i < j < |arrivals| ==> arrivals[j].id != arrivals[i].id)
        ensures arrivals[i].id in Merged(arrivals)
        ensures Merged(arrivals)[arrivals[i].id] == NipBalance(arrivals[i].balance, arrivals[i].success)
      {
        if i < n {
          assert arrivals[n].id != arrivals[i].id && front[i] == arrivals[i];
          assert forall j :: i < j < n ==> front[j] == arrivals[j];
        }
      }
    }
  }

  method Drain(arrivals: seq<NipResult>, external: nat) returns (balances: map<string, NipBalance>)
    requires |arrivals| == external
    ensures balances == Merged(arrivals) && Holds(balances, arrivals)
  {
    balances := map[];
    var i := 0;
    while i < external
      invariant 0 <= i <= external
      invariant balances == Merged(arrivals[..i])
    {
      assert arrivals[..i + 1][..i] == arrivals[..i];
      var res := arrivals[i];
      balances := balances[res.id := NipBalance(res.balance, res.success)];
      i := i + 1;
    }
    assert arrivals[..i] == arrivals;
    MergedHolds(arrivals);
  }

  /** The columns of the account, with that balance. */
  predicate Shows(e: Entry, a: Account, balance: string, available: bool) {
    && e.id == a.id && e.name == a.name && e.status == a.status && e.isPrimary == a.isPrimary
    && e.bankName == a.bankName && e.bankCode == a.bankCode
    && e.availableBalance == balance && e.balanceAvailable == available
  }

  /** A wallet shows its stored balance, an external account the one that arrived for it, or that there is none. */
  predicate FromMap(e: Entry, a: Account, balances: map<string, NipBalance>) {
    && (a.bankCode == "" ==> Shows(e, a, a.dbBalance, true))
    && (a.bankCode != "" && a.id in balances && balances[a.id].success ==> Shows(e, a, balances[a.id].balance, true))
    && (a.bankCode != "" && !(a.id in balances && balances[a.id].success) ==> Shows(e, a, "Balance Unavailable", false))
  }

  /** The same, with the account's own answer in place of what arrived. */
  predicate FromAnswer(e: Entry, a: Account, answer: Option<string>) {
    && (a.bankCode == "" ==> Shows(e, a, a.dbBalance, true))
    && (a.bankCode != "" && a.id != "" && answer.Some? ==> Shows(e, a, answer.value, true))
    && (a.bankCode != "" && (a.id == "" || answer.None?) ==> Shows(e, a, "Balance Unavailable", false))
  }

  function WithBalance(a: Account, balance: string, available: bool): Entry {
    Entry(a.id, a.name, a.status, a.isPrimary, a.bankName, a.bankCode, balance, available)
  }

  function EntryFrom(a: Account, balances: map<string, NipBalance>): Entry {
    if a.bankCode == "" then WithBalance(a, a.dbBalance, true)
    else if a.id in balances && balances[a.id].success then WithBalance(a, balances[a.id].balance, true)
    else WithBalance(a, "Balance Unavailable", false)
  }

  function Response(accts: seq<Account>, balances: map<string, NipBalance>): (entries: seq<Entry>)
    ensures |entries| == |accts| && forall k :: 0 <= k < |accts| ==> entries[k] == EntryFrom(accts[k], balances)
  {
    if accts == [] then []
    else Response(accts[..|accts| - 1], balances) + [EntryFrom(accts[|accts| - 1], balances)]
  }

  method BuildResponse(accts: seq<Account>, balances: map<string, NipBalance>) returns (entries: seq<Entry>)
    ensures entries == Response(accts, balances)
    ensures |entries| == |accts|
    ensures forall k :: 0 <= k < |accts| ==> FromMap(entries[k], accts[k], balances)
  {
    entries := [];
    var k := 0;
    while k < |accts|
      invariant 0 <= k <= |accts|
      invariant entries == Response(accts[..k], balances)
    {
      assert accts[..k + 1][..k] == accts[..k];
      var a := accts[k];
      if a.bankCode == "" {
        entries := entries + [WithBalance(a, a.dbBalance, true)];
      } else if a.id in balances && balances[a.id].success {
        entries := entries + [WithBalance(a, balances[a.id].balance, true)];
      } else {
        entries := entries + [WithBalance(a, "Balance Unavailable", false)];
      }
      k := k + 1;
    }
    assert accts[..k] == accts;
  }

  /** The enquiries one at a time, each account with its own answer. */
  function DirectEntry(a: Account, answer: Option<string>): Entry {
    if a.bankCode == "" then WithBalance(a, a.dbBalance, true)
    else if a.id != "" && answer.Some? then WithBalance(a, answer.value, true)
    else WithBalance(a, "Balance Unavailable", false)
  }

  function DirectResponse(w: World): (entries: seq<Entry>)
    requires Valid(w)
    ensures |entries| == |w.accts|
    ensures forall k :: 0 <= k < |w.accts| ==> entries[k] == DirectEntry(w.accts[k], w.answers[k])
    ensures forall k :: 0 <= k < |w.accts| ==> FromAnswer(entries[k], w.accts[k], w.answers[k])
  {
    seq(|w.accts|, k requires 0 <= k < |w.accts| => DirectEntry(w.accts[k], w.answers[k]))
  }

  // ---------- Workers and collector ----------

  /**
   `started` accounts have been looked at, `external` workers started, those in
   `running` have not sent yet; `sent` lists the accounts in sending order.
   */
  datatype State = State(started: nat, external: nat, running: set<nat>, sent: seq<nat>,
                         channel: seq<NipResult>, received: nat, balances: map<string, NipBalance>)

  datatype Step = Start | Send(k: nat) | Receive

  const INITIAL := State(0, 0, {}, [], [], 0, map[])

  /** A send needs room in the channel, whose capacity is the number of accounts. */
  predicate Enabled(w: World, s: State, step: Step) {
    match step
    case Start => s.started < |w.accts|
    case Send(k) => k in s.running && k < |w.accts| && |s.channel| < |w.accts|
    case Receive => s.started == |w.accts| && s.received < s.external && s.channel != []
  }

  function Apply(w: World, s: State, step: Step): State
    requires Valid(w) && Enabled(w, s, step)
  {
    match step
    case Start =>
      if External(w.accts[s.started])
      then s.(started := s.started + 1, external := s.external + 1, running := s.running + {s.started})
      else s.(started := s.started + 1)
    case Send(k) =>
      s.(running := s.running - {k}, sent := s.sent + [k], channel := s.channel + [ResultOf(w.accts[k], w.answers[k])])
    case Receive =>
      var res := s.channel[0];
      s.(channel := s.channel[1..], received := s.received + 1,
         balances := s.balances[res.id := NipBalance(res.balance, res.success)])
  }

  predicate Possible(w: World, s: State, steps: seq<Step>)
    requires Valid(w)
    decreases |steps|
  {
    steps == [] || (Enabled(w, s, steps[0]) && Possible(w, Apply(w, s, steps[0]), steps[1..]))
  }

  function After(w: World, s: State, steps: seq<Step>): State
    requires Valid(w) && Possible(w, s, steps)
    decreases |steps|
  {
    if steps == [] then s else After(w, Apply(w, s, steps[0]), steps[1..])
  }

  /** The collector has its `external` results and leaves the loop. */
  predicate Finished(w: World, s: State) {
    s.started == |w.accts| && s.received == s.external
  }

  predicate IsExternal(w: World, k: int) {
    0 <= k < |w.accts| && External(w.accts[k])
  }

  predicate AllExternal(w: World, sent: seq<nat>) {
    forall i :: 0 <= i < |sent| ==> IsExternal(w, sent[i])
  }

  function Results(w: World, sent: seq<nat>): (rs: seq<NipResult>)
    requires Valid(w) && AllExternal(w, sent)
    ensures |rs| == |sent|
    ensures forall i :: 0 <= i < |sent| ==> rs[i] == ResultOf(w.accts[sent[i]], w.answers[sent[i]])
  {
    seq(|sent|, i requires 0 <= i < |sent| && IsExternal(w, sent[i]) => ResultOf(w.accts[sent[i]], w.answers[sent[i]]))
  }

  // ---------- What every step keeps ----------

  ghost predicate Counted(w: World, s: State) {
    && s.external <= s.started <= |w.accts|
    && |s.channel| + |s.running| + s.received == s.external
    && |s.sent| == |s.channel| + s.received
  }

  /** A started external account is running or has sent, not both; no other account is either. */
  predicate TrackedAt(w: World, s: State, k: nat) {
    && (k in s.running ==> k !in s.sent)
    && (k in s.running || k in s.sent <==> IsExternal(w, k) && k < s.started)
  }

  ghost predicate Tracked(w: World, s: State) {
    AllExternal(w, s.sent) && forall k :: TrackedAt(w, s, k)
  }

  ghost predicate Flowing(w: World, s: State)
    requires Valid(w) && Counted(w, s) && Tracked(w, s)
  {
    && s.channel == Results(w, s.sent)[s.received..]
    && s.balances == Merged(Results(w, s.sent)[..s.received])
  }

  ghost predicate Inv(w: World, s: State)
    requires Valid(w)
  {
    Counted(w, s) && Tracked(w, s) && Flowing(w, s)
  }

  lemma StepKeepsCounts(w: World, s: State, step: Step)
    requires Valid(w) && Counted(w, s) && Tracked(w, s) && Enabled(w, s, step)
    ensures Counted(w, Apply(w, s, step))
  {
    var s' := Apply(w, s, step);
    match step
    case Start =>
      assert TrackedAt(w, s, s.started);
    case Send(k) =>
      assert s'.running + {k} == s.running;
    case Receive =>
  }

  lemma StepTracks(w: World, s: State, step: Step, k: nat)
    requires Valid(w) && TrackedAt(w, s, k) && Enabled(w, s, step)
    ensures TrackedAt(w, Apply(w, s, step), k)
  {
    match step
    case Start =>
    case Send(j) => SentOneMore(s.sent, j);
    case Receive =>
  }

  lemma StepKeepsTrack(w: World, s: State, step: Step)
    requires Valid(w) && Tracked(w, s) && Enabled(w, s, step)
    ensures Tracked(w, Apply(w, s, step))
  {
    forall k: nat ensures TrackedAt(w, Apply(w, s, step), k) {
      assert TrackedAt(w, s, k);
      StepTracks(w, s, step, k);
    }
    if step.Send? {
      assert TrackedAt(w, s, step.k);
    }
  }

  lemma SentOneMore(sent: seq<nat>, k: nat)
    ensures forall j :: j in sent + [k] <==> j in sent || j == k
  {
  }

  lemma SendKeepsFlow(w: World, s: State, k: nat)
    requires Valid(w) && Inv(w, s) && Enabled(w, s, Send(k))
    requires Counted(w, Apply(w, s, Send(k))) && Tracked(w, Apply(w, s, Send(k)))
    ensures Flowing(w, Apply(w, s, Send(k)))
  {
    var s' := Apply(w, s, Send(k));
    var rs, rs' := Results(w, s.sent), Results(w, s'.sent);
    assert rs' == rs + [ResultOf(w.accts[k], w.answers[k])];
    assert rs'[..s.received] == rs[..s.received];
  }

  lemma ReceiveKeepsFlow(w: World, s: State)
    requires Valid(w) && Inv(w, s) && Enabled(w, s, Receive)
    requires Counted(w, Apply(w, s, Receive)) && Tracked(w, Apply(w, s, Receive))
    ensures Flowing(w, Apply(w, s, Receive))
  {
    var rs, n := Results(w, s.sent), s.received;
    assert rs[..n + 1][..n] == rs[..n];
    assert rs[..n + 1][n] == s.channel[0];
    assert rs[n..][1..] == rs[n + 1..];
  }

  /** One step of any participant keeps the invariant. */
  lemma StepKeepsInv(w: World, s: State, step: Step)
    requires Valid(w) && Inv(w, s) && Enabled(w, s, step)
    ensures Inv(w, Apply(w, s, step))
  {
    StepKeepsCounts(w, s, step);
    StepKeepsTrack(w, s, step);
    match step
    case Start =>
    case Send(k) => SendKeepsFlow(w, s, k);
    case Receive => ReceiveKeepsFlow(w, s);
  }

  lemma {:induction false} RunKeepsInv(w: World, s: State, steps: seq<Step>)
    requires Valid(w) && Inv(w, s) && Possible(w, s, steps)
    ensures Inv(w, After(w, s, steps))
    decreases |steps|
  {
    if steps != [] {
      StepKeepsInv(w, s, steps[0]);
      RunKeepsInv(w, Apply(w, s, steps[0]), steps[1..]);
    }
  }

  lemma Initially(w: World)
    requires Valid(w)
    ensures Inv(w, INITIAL)
  {
  }

  /** In every reachable state a worker that has its answer can send it at once. */
  lemma NoSenderBlocks(w: World, steps: seq<Step>, k: nat)
    requires Valid(w) && Possible(w, INITIAL, steps) && k in After(w, INITIAL, steps).running
    ensures Enabled(w, After(w, INITIAL, steps), Send(k))
  {
    var s := After(w, INITIAL, steps);
    Initially(w);
    RunKeepsInv(w, INITIAL, steps);
    assert TrackedAt(w, s, k);
    assert |s.running| > 0;
  }

  /** When the collector leaves its loop nothing is left behind, and it has taken one result per external account. */
  lemma CollectorTakesAll(w: World, steps: seq<Step>)
    requires Valid(w) && Possible(w, INITIAL, steps) && Finished(w, After(w, INITIAL, steps))
    ensures var s := After(w, INITIAL, steps);
            && s.running == {} && s.channel == [] && |s.sent| == s.external
            && AllExternal(w, s.sent) && (forall k: nat :: k in s.sent <==> IsExternal(w, k))
            && s.balances == Merged(Results(w, s.sent))
  {
    var s := After(w, INITIAL, steps);
    Initially(w);
    RunKeepsInv(w, INITIAL, steps);
    assert Results(w, s.sent)[..s.received] == Results(w, s.sent);
    forall k: nat ensures k in s.sent <==> IsExternal(w, k) {
      assert TrackedAt(w, s, k);
    }
  }

  // ---------- Termination ----------

  function Work(w: World, s: State): int {
    3 * (|w.accts| - s.started) + 2 * |s.running| + |s.channel|
  }

  lemma StepDoesWork(w: World, s: State, step: Step)
    requires Valid(w) && Inv(w, s) && Enabled(w, s, step)
    ensures 0 <= Work(w, Apply(w, s, step)) < Work(w, s)
  {
    var s' := Apply(w, s, step);
    match step
    case Start =>
      assert TrackedAt(w, s, s.started);
    case Send(k) =>
      assert s'.running + {k} == s.running;
    case Receive =>
  }

  /** Whatever the schedule, a run has at most three steps per account. */
  lemma {:induction false} BoundedRun(w: World, s: State, steps: seq<Step>)
    requires Valid(w) && Inv(w, s) && Possible(w, s, steps)
    ensures |steps| <= Work(w, s)
    decreases |steps|
  {
    if steps != [] {
      StepKeepsInv(w, s, steps[0]);
      StepDoesWork(w, s, steps[0]);
      BoundedRun(w, Apply(w, s, steps[0]), steps[1..]);
    }
  }

  /** Until the collector is finished something can move. */
  lemma SomethingMoves(w: World, s: State) returns (step: Step)
    requires Valid(w) && Inv(w, s) && !Finished(w, s)
    ensures Enabled(w, s, step)
  {
    if s.started < |w.accts| {
      step := Start;
    } else if s.channel != [] {
      step := Receive;
    } else {
      assert |s.running| > 0;
      var k :| k in s.running;
      assert TrackedAt(w, s, k);
      step := Send(k);
    }
  }

  lemma {:induction false} CanFinish(w: World, s: State) returns (steps: seq<Step>)
    requires Valid(w) && Inv(w, s)
    ensures Possible(w, s, steps) && Finished(w, After(w, s, steps))
    decreases Work(w, s)
  {
    if Finished(w, s) {
      steps := [];
    } else {
      var step := SomethingMoves(w, s);
      StepKeepsInv(w, s, step);
      StepDoesWork(w, s, step);
      var rest := CanFinish(w, Apply(w, s, step));
      steps := [step] + rest;
      assert steps[1..] == rest;
    }
  }

  // ---------- The order of arrival ----------

  predicate SameExternal(a: Account, b: Account) {
    External(a) && External(b) && a.id == b.id
  }

  /** External accounts with the same id have the same answer; distinct ids are one way to have that. */
  predicate Consistent(w: World)
    requires Valid(w)
  {
    forall i, j :: 0 <= i < |w.accts| && 0 <= j < |w.accts| && SameExternal(w.accts[i], w.accts[j])
      ==> w.answers[i] == w.answers[j]
  }

  function BalanceOf(answer: Option<string>): NipBalance {
    match answer
    case None => NipBalance("", false)
    case Some(balance) => NipBalance(balance, true)
  }

  lemma {:induction false} MergedKeys(w: World, sent: seq<nat>, id: string)
    requires Valid(w) && AllExternal(w, sent)
    ensures id in Merged(Results(w, sent)) <==> exists i :: 0 <= i < |sent| && w.accts[sent[i]].id == id
  {
    if sent != [] {
      var n := |sent| - 1;
      MergedKeys(w, sent[..n], id);
      assert sent == sent[..n] + [sent[n]];
      assert Results(w, sent)[..n] == Results(w, sent[..n]);
    }
  }

  /** The map holds, for an id, the answer of one of the accounts with that id. */
  lemma {:induction false} MergedValue(w: World, sent: seq<nat>, id: string)
    requires Valid(w) && AllExternal(w, sent)
    requires id in Merged(Results(w, sent))
    ensures exists i :: && 0 <= i < |sent| && w.accts[sent[i]].id == id
                        && Merged(Results(w, sent))[id] == BalanceOf(w.answers[sent[i]])
  {
    var n := |sent| - 1;
    assert Results(w, sent)[..n] == Results(w, sent[..n]);
    if w.accts[sent[n]].id != id {
      MergedValue(w, sent[..n], id);
    }
  }

  lemma EntryIsDirect(w: World, sent: seq<nat>, k: nat)
    requires Valid(w) && Consistent(w) && k < |w.accts|
    requires AllExternal(w, sent) && forall j: nat :: IsExternal(w, j) ==> j in sent
    ensures EntryFrom(w.accts[k], Merged(Results(w, sent))) == DirectEntry(w.accts[k], w.answers[k])
  {
    var a := w.accts[k];
    MergedKeys(w, sent, a.id);
    if External(a) {
      assert k in sent;
      MergedValue(w, sent, a.id);
    }
  }

  lemma FinishedIsDirect(w: World, steps: seq<Step>)
    requires Valid(w) && Consistent(w) && Possible(w, INITIAL, steps) && Finished(w, After(w, INITIAL, steps))
    ensures Response(w.accts, After(w, INITIAL, steps).balances) == DirectResponse(w)
  {
    var s := After(w, INITIAL, steps);
    CollectorTakesAll(w, steps);
    var r := Response(w.accts, s.balances);
    forall k | 0 <= k < |w.accts| ensures r[k] == DirectResponse(w)[k] {
      EntryIsDirect(w, s.sent, k);
    }
  }

  ghost predicate OrderIrrelevant(w: World)
    requires Valid(w)
  {
    forall steps :: Possible(w, INITIAL, steps) && Finished(w, After(w, INITIAL, steps))
                    ==> Response(w.accts, After(w, INITIAL, steps).balances) == DirectResponse(w)
  }

  lemma SameEntrySameAnswer(a: Account, b: Account, x: Option<string>, y: Option<string>,
                            balances: map<string, NipBalance>)
    requires SameExternal(a, b)
    requires EntryFrom(a, balances) == DirectEntry(a, x) && EntryFrom(b, balances) == DirectEntry(b, y)
    ensures x == y
  {
  }

  /**
   Every completed run gives the response of asking one account at a time if
   and only if external accounts that share an id share their answer.
   */
  lemma ArrivalOrderIrrelevant(w: World)
    requires Valid(w)
    ensures OrderIrrelevant(w) <==> Consistent(w)
  {
    if Consistent(w) {
      forall steps | Possible(w, INITIAL, steps) && Finished(w, After(w, INITIAL, steps))
        ensures Response(w.accts, After(w, INITIAL, steps).balances) == DirectResponse(w)
      {
        FinishedIsDirect(w, steps);
      }
    }
    if OrderIrrelevant(w) {
      Initially(w);
      var steps := CanFinish(w, INITIAL);
      var balances := After(w, INITIAL, steps).balances;
      forall i, j | 0 <= i < |w.accts| && 0 <= j < |w.accts| && SameExternal(w.accts[i], w.accts[j])
        ensures w.answers[i] == w.answers[j]
      {
        assert Response(w.accts, balances)[i] == DirectResponse(w)[i]
               && Response(w.accts, balances)[j] == DirectResponse(w)[j];
        SameEntrySameAnswer(w.accts[i], w.accts[j], w.answers[i], w.answers[j], balances);
      }
    }
  }
}
