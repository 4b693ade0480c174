/**
 The request/callback rendezvous. A waiter stores a one-slot channel in the
 pending map under its message id, sends its request and then races the channel
 against a timer; a callback atomically takes the entry out of the map and sends
 into the channel. Two services, name enquiry and funds transfer, do the same.
 */
module Rendezvous {
  import opened Common

  type MsgId = string

  /** What a callback carries: a body, or an error that the waiter returns instead. */
  datatype Callback = Callback(body: int, err: Option<int>)

  // ---------- The shared table ----------

  /** A pending map of keys to channels, and the buffer of each channel. */
  datatype Desk<K(==)> = Desk(pending: map<K, nat>, channels: map<nat, seq<Callback>>) {

    function Store(key: K, ch: nat): Desk<K> {
      Desk(pending[key := ch], channels[ch := []])
    }

    function Taken(key: K): Desk<K> {
      this.(pending := pending - {key})
    }

    /** A channel made with capacity one accepts a value only while it is empty. */
    predicate CanSend(ch: nat) {
      ch in channels && channels[ch] == []
    }

    function Sent(ch: nat, c: Callback): Desk<K>
      requires CanSend(ch)
    {
      this.(channels := channels[ch := [c]])
    }

    predicate CanReceive(ch: nat) {
      ch in channels && channels[ch] != []
    }

    function Received(ch: nat): Desk<K>
      requires CanReceive(ch)
    {
      this.(channels := channels[ch := channels[ch][1..]])
    }
  }

  /** One service's pending map; each method is one atomic action on it. */
  class PendingTable {
    var pending: map<MsgId, nat>
    var channels: map<nat, seq<Callback>>
    var made: nat

    ghost function View(): Desk<MsgId>
      reads this
    {
      Desk(pending, channels)
    }

    ghost predicate Valid()
      reads this
    {
      && (forall ch :: ch in channels ==> ch < made && |channels[ch]| <= 1)
      && (forall k :: k in pending ==> pending[k] in channels)
    }

    constructor ()
      ensures Valid() && View() == Desk(map[], map[])
    {
      pending, channels, made := map[], map[], 0;
    }

    /** resultCh := make(chan, 1); pending.Store(msgId, resultCh) */
    method Register(msgId: MsgId) returns (ch: nat)
      requires Valid()
      modifies this
      ensures Valid()
      ensures ch !in old(channels) && View() == old(View()).Store(msgId, ch)
    {
      ch := made;
      made := made + 1;
      channels := channels[ch := []];
      pending := pending[msgId := ch];
    }

    /** pending.LoadAndDelete(msgId) */
    method LoadAndDelete(msgId: MsgId) returns (ch: Option<nat>)
      requires Valid()
      modifies this`pending
      ensures Valid() && View() == old(View()).Taken(msgId)
      ensures ch == if msgId in old(pending) then Some(old(pending)[msgId]) else None
    {
      ch := None;
      if msgId in pending {
        ch := Some(pending[msgId]);
        pending := pending - {msgId};
      }
    }

    /** ch <- result; `sent` is false where the source would block. */
    method Send(ch: nat, c: Callback) returns (sent: bool)
      requires Valid()
      modifies this`channels
      ensures Valid() && sent == old(View()).CanSend(ch)
      ensures View() == if sent then old(View()).Sent(ch, c) else old(View())
    {
      sent := ch in channels && |channels[ch]| < 1;
      if sent {
        assert channels[ch] + [c] == [c];
        channels := channels[ch := channels[ch] + [c]];
      }
    }

    /** The receiving arm of the select, when it is ready. */
    method TryReceive(ch: nat) returns (c: Option<Callback>)
      requires Valid()
      modifies this`channels
      ensures Valid() && c.Some? == old(View()).CanReceive(ch)
      ensures c.Some? ==> c.value == old(channels)[ch][0] && View() == old(View()).Received(ch)
      ensures c.None? ==> View() == old(View())
    {
      c := None;
      if ch in channels && channels[ch] != [] {
        c := Some(channels[ch][0]);
        channels := channels[ch := channels[ch][1..]];
      }
    }

    /** The deferred pending.Delete(msgId). */
    method Delete(msgId: MsgId)
      requires Valid()
      modifies this`pending
      ensures Valid() && View() == old(View()).Taken(msgId)
    {
      pending := pending - {msgId};
    }
  }

  // ---------- The protocol ----------

  datatype Service = NameEnquiry | FundsTransfer

  type Key = (Service, MsgId)

  datatype Outcome = SendFailed | TimedOut | Got(callback: Callback)

  datatype WaiterStage =
    | Preparing
    | Sending
    | Selecting
    | Leaving(outcome: Outcome)
    | Returned(result: Outcome)

  /** `takenBy` is history: the notifier that took this waiter's entry out of the map. */
  datatype Waiter = Waiter(key: Key, stage: WaiterStage, takenBy: Option<nat>) {
    predicate HasGot(c: Callback) {
      stage == Leaving(Got(c)) || stage == Returned(Got(c))
    }

    predicate GotSomething() {
      (stage.Leaving? && stage.outcome.Got?) || (stage.Returned? && stage.result.Got?)
    }

    predicate Registered() {
      stage.Sending? || stage.Selecting? || stage.Leaving?
    }
  }

  /**
   A callback request: it notifies the services in `plan` in turn. A pacs.002
   notifies funds transfer, an acmt.024 name enquiry, an admi.002 both.
   */
  datatype Notifier = Notifier(msgId: MsgId, callback: Callback, plan: seq<Service>, at: nat, holding: Option<nat>)

  datatype Event = DidRegister(waiter: nat) | DidLookUp(notifier: nat, key: Key)

  /** Channel numbers are waiter numbers; `log` is history. */
  datatype State = State(desk: Desk<Key>, waiters: seq<Waiter>, notifiers: seq<Notifier>, log: seq<Event>)

  datatype Action = Wait(waiter: nat, ok: bool) | Notify(notifier: nat)

  function PutWaiter(s: State, w: nat, stage: WaiterStage): State
    requires w < |s.waiters|
  {
    s.(waiters := s.waiters[w := s.waiters[w].(stage := stage)])
  }

  /** `ok` picks the send result, and at the select which ready arm is taken. */
  function WaiterStep(s: State, w: nat, ok: bool): State
    requires w < |s.waiters|
  {
    var x := s.waiters[w];
    match x.stage
    case Preparing => PutWaiter(s, w, Sending).(desk := s.desk.Store(x.key, w), log := s.log + [DidRegister(w)])
    case Sending => PutWaiter(s, w, if ok then Selecting else Leaving(SendFailed))
    case Selecting =>
      if !ok then PutWaiter(s, w, Leaving(TimedOut))
      else if s.desk.CanReceive(w)
      then PutWaiter(s, w, Leaving(Got(s.desk.channels[w][0]))).(desk := s.desk.Received(w))
      else s
    case Leaving(outcome) => PutWaiter(s, w, Returned(outcome)).(desk := s.desk.Taken(x.key))
    case Returned(_) => s
  }

  function LookUp(s: State, n: nat): State
    requires n < |s.notifiers| && s.notifiers[n].at < |s.notifiers[n].plan|
  {
    var x := s.notifiers[n];
    var key := (x.plan[x.at], x.msgId);
    var s' := s.(log := s.log + [DidLookUp(n, key)]);
    if key in s.desk.pending && s.desk.pending[key] < |s.waiters| then
      var w := s.desk.pending[key];
      s'.(desk := s.desk.Taken(key),
          notifiers := s.notifiers[n := x.(holding := Some(w))],
          waiters := s.waiters[w := s.waiters[w].(takenBy := Some(n))])
    else s'.(notifiers := s.notifiers[n := x.(at := x.at + 1)])
  }

  predicate NotifierBlocked(s: State, n: nat) {
    n < |s.notifiers| && s.notifiers[n].holding.Some? && !s.desk.CanSend(s.notifiers[n].holding.value)
  }

  function NotifierStep(s: State, n: nat): State
    requires n < |s.notifiers|
  {
    var x := s.notifiers[n];
    if x.holding.Some? then
      if NotifierBlocked(s, n) then s
      else s.(desk := s.desk.Sent(x.holding.value, x.callback),
              notifiers := s.notifiers[n := x.(holding := None, at := x.at + 1)])
    else if x.at < |x.plan| then LookUp(s, n)
    else s
  }

  function Step(s: State, a: Action): State {
    match a
    case Wait(w, ok) => if w < |s.waiters| then WaiterStep(s, w, ok) else s
    case Notify(n) => if n < |s.notifiers| then NotifierStep(s, n) else s
  }

  function Run(s: State, actions: seq<Action>): State {
    if actions == [] then s else Step(Run(s, actions[..|actions| - 1]), actions[|actions| - 1])
  }

  lemma RunSnoc(s: State, actions: seq<Action>, a: Action)
    ensures Run(s, actions + [a]) == Step(Run(s, actions), a)
  {
    assert (actions + [a])[..|actions|] == actions;
  }

  function Start(keys: seq<Key>, callbacks: seq<Notifier>): State {
    State(Desk(map[], map[]),
          seq(|keys|, i requires 0 <= i < |keys| => Waiter(keys[i], Preparing, None)),
          seq(|callbacks|, i requires 0 <= i < |callbacks| => callbacks[i].(at := 0, holding := None)),
          [])
  }

  // ---------- The invariant ----------

  predicate Distinct(keys: seq<Key>) {
    forall i, j :: 0 <= i < |keys| && 0 <= j < |keys| && i != j ==> keys[i] != keys[j]
  }

  predicate DistinctKeys(s: State) {
    forall i, j :: 0 <= i < |s.waiters| && 0 <= j < |s.waiters| && i != j ==> s.waiters[i].key != s.waiters[j].key
  }

  /** The notifier of the first lookup of `key` after waiter `w` registered. */
  function FirstLookUp(log: seq<Event>, w: nat, key: Key): Option<nat> {
    if log == [] then None
    else
      var before, last := FirstLookUp(log[..|log| - 1], w, key), log[|log| - 1];
      if before.Some? then before
      else if last.DidLookUp? && last.key == key && DidRegister(w) in log[..|log| - 1] then Some(last.notifier)
      else None
  }

  ghost predicate WaiterOk(s: State, w: nat)
    requires w < |s.waiters|
  {
    var x := s.waiters[w];
    && (x.stage.Preparing? <==> DidRegister(w) !in s.log)
    && (x.stage.Preparing? ==> x.takenBy.None?)
    && (!x.stage.Preparing? ==> w in s.desk.channels)
    && (x.key in s.desk.pending && s.desk.pending[x.key] == w <==> x.Registered() && x.takenBy.None?)
    && (x.takenBy.None? && !x.stage.Preparing? ==> s.desk.channels[w] == [] && !x.GotSomething())
    && (x.takenBy.None? && x.Registered() ==> FirstLookUp(s.log, w, x.key).None?)
    && (x.takenBy.Some? ==> TakenOk(s, w, x.takenBy.value))
  }

  /** Once notifier `n` took it, the callback is in its hands, in the channel, or received: never nowhere. */
  ghost predicate TakenOk(s: State, w: nat, n: nat)
    requires w < |s.waiters|
  {
    var x := s.waiters[w];
    && n < |s.notifiers| && w in s.desk.channels && !x.stage.Preparing?
    && s.notifiers[n].msgId == x.key.1
    && FirstLookUp(s.log, w, x.key) == Some(n)
    && (if s.notifiers[n].holding == Some(w) then s.desk.channels[w] == [] && !x.GotSomething()
        else if x.GotSomething() then s.desk.channels[w] == [] && x.HasGot(s.notifiers[n].callback)
        else s.desk.channels[w] == [s.notifiers[n].callback])
  }

  ghost predicate Inv(s: State) {
    && DistinctKeys(s)
    && (forall k :: k in s.desk.pending ==> s.desk.pending[k] < |s.waiters| && s.waiters[s.desk.pending[k]].key == k)
    && (forall n :: 0 <= n < |s.notifiers| && s.notifiers[n].holding.Some?
          ==> s.notifiers[n].holding.value < |s.waiters| && s.waiters[s.notifiers[n].holding.value].takenBy == Some(n))
    && (forall w :: 0 <= w < |s.waiters| ==> WaiterOk(s, w))
  }

  lemma LogGrows(log: seq<Event>, e: Event, w: nat, key: Key)
    ensures FirstLookUp(log + [e], w, key)
            == if FirstLookUp(log, w, key).Some? then FirstLookUp(log, w, key)
               else if e.DidLookUp? && e.key == key && DidRegister(w) in log then Some(e.notifier)
               else None
  {
    assert (log + [e])[..|log|] == log;
  }

  lemma {:induction false} UnregisteredUnseen(log: seq<Event>, w: nat, key: Key)
    requires DidRegister(w) !in log
    ensures FirstLookUp(log, w, key).None?
  {
    if log != [] {
      UnregisteredUnseen(log[..|log| - 1], w, key);
    }
  }

  /** A waiter that a step does not concern stays as it was. */
  lemma Bystander(s: State, s': State, v: nat)
    requires v < |s.waiters| == |s'.waiters| && WaiterOk(s, v) && s'.waiters[v] == s.waiters[v]
    requires v in s.desk.channels <==> v in s'.desk.channels
    requires v in s.desk.channels ==> s'.desk.channels[v] == s.desk.channels[v]
    requires var key := s.waiters[v].key;
             && (key in s.desk.pending && s.desk.pending[key] == v
                 <==> key in s'.desk.pending && s'.desk.pending[key] == v)
             && (DidRegister(v) in s.log <==> DidRegister(v) in s'.log)
             && (FirstLookUp(s'.log, v, key) == FirstLookUp(s.log, v, key)
                 || (s.waiters[v].takenBy.None? && !s.waiters[v].Registered()))
    requires |s'.notifiers| == |s.notifiers|
    requires forall n :: 0 <= n < |s.notifiers| ==>
               && s'.notifiers[n].msgId == s.notifiers[n].msgId && s'.notifiers[n].callback == s.notifiers[n].callback
               && (s'.notifiers[n].holding == Some(v) <==> s.notifiers[n].holding == Some(v))
    ensures WaiterOk(s', v)
  {
  }

  lemma RegisterKeeps(s: State, w: nat)
    requires Inv(s) && w < |s.waiters| && s.waiters[w].stage.Preparing?
    ensures Inv(WaiterStep(s, w, true))
  {
    var s' := WaiterStep(s, w, true);
    assert WaiterOk(s, w);
    forall v | 0 <= v < |s'.waiters| ensures WaiterOk(s', v) {
      var key := s.waiters[v].key;
      assert WaiterOk(s, v);
      LogGrows(s.log, DidRegister(w), v, key);
      if v == w {
        UnregisteredUnseen(s.log, w, key);
      } else {
        assert key != s.waiters[w].key;
        Bystander(s, s', v);
      }
    }
  }

  lemma WaiterItself(s: State, w: nat, ok: bool)
    requires Inv(s) && w < |s.waiters| && !s.waiters[w].stage.Preparing?
    ensures WaiterOk(WaiterStep(s, w, ok), w)
  {
    assert WaiterOk(s, w);
  }

  lemma OtherWaiter(s: State, w: nat, ok: bool, v: nat)
    requires Inv(s) && w < |s.waiters| && !s.waiters[w].stage.Preparing? && v < |s.waiters| && v != w
    ensures WaiterOk(WaiterStep(s, w, ok), v)
  {
    assert WaiterOk(s, v) && s.waiters[v].key != s.waiters[w].key;
    var s' := WaiterStep(s, w, ok);
    assert s'.log == s.log && s'.notifiers == s.notifiers && s'.waiters[v] == s.waiters[v];
    Bystander(s, s', v);
  }

  lemma WaiterKeeps(s: State, w: nat, ok: bool)
    requires Inv(s) && w < |s.waiters| && !s.waiters[w].stage.Preparing?
    ensures Inv(WaiterStep(s, w, ok))
  {
    var s' := WaiterStep(s, w, ok);
    forall v | 0 <= v < |s'.waiters| ensures WaiterOk(s', v) {
      if v == w {
        WaiterItself(s, w, ok);
      } else {
        OtherWaiter(s, w, ok, v);
      }
    }
  }

  lemma SendKeeps(s: State, n: nat)
    requires Inv(s) && n < |s.notifiers| && s.notifiers[n].holding.Some?
    ensures !NotifierBlocked(s, n) && Inv(NotifierStep(s, n))
  {
    var w := s.notifiers[n].holding.value;
    assert WaiterOk(s, w);
    var s' := NotifierStep(s, n);
    forall v | 0 <= v < |s'.waiters| ensures WaiterOk(s', v) {
      assert WaiterOk(s, v);
      if v != w {
        Bystander(s, s', v);
      }
    }
  }

  lemma HitKeeps(s: State, n: nat, key: Key, w: nat)
    requires Inv(s) && n < |s.notifiers| && s.notifiers[n].holding.None? && s.notifiers[n].at < |s.notifiers[n].plan|
    requires key == (s.notifiers[n].plan[s.notifiers[n].at], s.notifiers[n].msgId)
    requires key in s.desk.pending && w == s.desk.pending[key]
    ensures Inv(LookUp(s, n))
  {
    var s' := LookUp(s, n);
    assert WaiterOk(s, w);
    forall v | 0 <= v < |s'.waiters| ensures WaiterOk(s', v) {
      assert WaiterOk(s, v);
      LogGrows(s.log, DidLookUp(n, key), v, s.waiters[v].key);
      if v != w {
        assert s.waiters[v].key != key;
        Bystander(s, s', v);
      }
    }
  }

  lemma MissKeeps(s: State, n: nat, key: Key)
    requires Inv(s) && n < |s.notifiers| && s.notifiers[n].holding.None? && s.notifiers[n].at < |s.notifiers[n].plan|
    requires key == (s.notifiers[n].plan[s.notifiers[n].at], s.notifiers[n].msgId)
    requires key !in s.desk.pending
    ensures Inv(LookUp(s, n))
  {
    var s' := LookUp(s, n);
    forall v | 0 <= v < |s'.waiters| ensures WaiterOk(s', v) {
      assert WaiterOk(s, v);
      LogGrows(s.log, DidLookUp(n, key), v, s.waiters[v].key);
      Bystander(s, s', v);
    }
  }

  lemma StepKeeps(s: State, a: Action)
    requires Inv(s)
    ensures Inv(Step(s, a))
  {
    match a
    case Wait(w, ok) =>
      if w < |s.waiters| {
        if s.waiters[w].stage.Preparing? {
          RegisterKeeps(s, w);
        } else {
          WaiterKeeps(s, w, ok);
        }
      }
    case Notify(n) =>
      if n < |s.notifiers| {
        if s.notifiers[n].holding.Some? {
          SendKeeps(s, n);
        } else if s.notifiers[n].at < |s.notifiers[n].plan| {
          var key := (s.notifiers[n].plan[s.notifiers[n].at], s.notifiers[n].msgId);
          if key in s.desk.pending {
            HitKeeps(s, n, key, s.desk.pending[key]);
          } else {
            MissKeeps(s, n, key);
          }
        }
      }
  }

  lemma {:induction false} Reachable(keys: seq<Key>, callbacks: seq<Notifier>, actions: seq<Action>)
    requires Distinct(keys)
    ensures Inv(Run(Start(keys, callbacks), actions))
  {
    if actions == [] {
      var s := Start(keys, callbacks);
      forall w | 0 <= w < |s.waiters| ensures WaiterOk(s, w) {
      }
    } else {
      Reachable(keys, callbacks, actions[..|actions| - 1]);
      StepKeeps(Run(Start(keys, callbacks), actions[..|actions| - 1]), actions[|actions| - 1]);
    }
  }

  // ---------- What every interleaving guarantees, whatever the ids ----------

  /** An entry leads to a registered waiter that nobody has taken, and whose channel is empty. */
  predicate EntryOk(s: State, k: Key)
    requires k in s.desk.pending
  {
    var w := s.desk.pending[k];
    && w < |s.waiters| && s.waiters[w].key == k && s.waiters[w].Registered() && s.waiters[w].takenBy.None?
    && s.desk.CanSend(w)
  }

  /** A channel in a notifier's hands is that of the waiter it took, and is empty. */
  predicate HandOk(s: State, n: nat)
    requires n < |s.notifiers|
  {
    s.notifiers[n].holding.Some?
    ==> var w := s.notifiers[n].holding.value;
        w < |s.waiters| && s.waiters[w].takenBy == Some(n) && s.desk.CanSend(w)
  }

  predicate Untouched(x: Waiter) {
    x.stage.Preparing? ==> x.takenBy.None?
  }

  ghost predicate Slots(s: State) {
    && (forall k :: k in s.desk.pending ==> EntryOk(s, k))
    && (forall n :: 0 <= n < |s.notifiers| ==> HandOk(s, n))
    && (forall w :: 0 <= w < |s.waiters| ==> Untouched(s.waiters[w]))
  }

  lemma WaiterKeepsSlots(s: State, w: nat, ok: bool)
    requires Slots(s) && w < |s.waiters|
    ensures Slots(WaiterStep(s, w, ok))
  {
    var s' := WaiterStep(s, w, ok);
    assert Untouched(s.waiters[w]);
    forall k | k in s'.desk.pending ensures EntryOk(s', k) {
      if k in s.desk.pending {
        assert EntryOk(s, k);
      }
    }
    forall n | 0 <= n < |s'.notifiers| ensures HandOk(s', n) {
      assert HandOk(s, n);
    }
  }

  lemma NotifierKeepsSlots(s: State, n: nat)
    requires Slots(s) && n < |s.notifiers|
    ensures !NotifierBlocked(s, n) && Slots(NotifierStep(s, n))
  {
    var s' := NotifierStep(s, n);
    assert HandOk(s, n);
    forall k | k in s'.desk.pending ensures EntryOk(s', k) {
      assert EntryOk(s, k);
    }
    forall m | 0 <= m < |s'.notifiers| ensures HandOk(s', m) {
      HandStays(s, n, m);
    }
    forall w | 0 <= w < |s'.waiters| ensures Untouched(s'.waiters[w]) {
      assert Untouched(s.waiters[w]);
    }
  }

  lemma HandStays(s: State, n: nat, m: nat)
    requires Slots(s) && n < |s.notifiers| && m < |s.notifiers|
    ensures m < |NotifierStep(s, n).notifiers| && HandOk(NotifierStep(s, n), m)
  {
    var x := s.notifiers[n];
    assert HandOk(s, n) && HandOk(s, m);
    if x.holding.None? && x.at < |x.plan| && (x.plan[x.at], x.msgId) in s.desk.pending {
      assert EntryOk(s, (x.plan[x.at], x.msgId));
    }
  }

  lemma {:induction false} SlotsReachable(keys: seq<Key>, callbacks: seq<Notifier>, actions: seq<Action>)
    ensures Slots(Run(Start(keys, callbacks), actions))
  {
    if actions != [] {
      var m := |actions| - 1;
      SlotsReachable(keys, callbacks, actions[..m]);
      var s := Run(Start(keys, callbacks), actions[..m]);
      match actions[m]
      case Wait(w, ok) =>
        if w < |s.waiters| {
          WaiterKeepsSlots(s, w, ok);
        }
      case Notify(n) =>
        if n < |s.notifiers| {
          NotifierKeepsSlots(s, n);
        }
    }
  }

  /** No notifier ever blocks on its send, and no two hold the same channel. */
  lemma NotifiersNeverBlock(keys: seq<Key>, callbacks: seq<Notifier>, actions: seq<Action>, n: nat)
    ensures var s := Run(Start(keys, callbacks), actions);
            && !NotifierBlocked(s, n)
            && forall m :: 0 <= m < |s.notifiers| && m != n && n < |s.notifiers| && s.notifiers[n].holding.Some?
                 ==> s.notifiers[m].holding != s.notifiers[n].holding
  {
    SlotsReachable(keys, callbacks, actions);
    var s := Run(Start(keys, callbacks), actions);
    if n < |s.notifiers| {
      NotifierKeepsSlots(s, n);
      forall m | 0 <= m < |s.notifiers| && m != n && s.notifiers[n].holding.Some?
        ensures s.notifiers[m].holding != s.notifiers[n].holding
      {
        assert HandOk(s, n) && HandOk(s, m);
      }
    }
  }

  /** Once every waiter that started has returned, the pending maps are empty. */
  lemma NothingLeftPending(keys: seq<Key>, callbacks: seq<Notifier>, actions: seq<Action>)
    ensures var s := Run(Start(keys, callbacks), actions);
            (forall w :: 0 <= w < |s.waiters| ==> s.waiters[w].stage.Preparing? || s.waiters[w].stage.Returned?)
            ==> s.desk.pending == map[]
  {
    SlotsReachable(keys, callbacks, actions);
    var s := Run(Start(keys, callbacks), actions);
    if forall w :: 0 <= w < |s.waiters| ==> s.waiters[w].stage.Preparing? || s.waiters[w].stage.Returned? {
      forall k ensures k !in s.desk.pending {
        assert k in s.desk.pending ==> EntryOk(s, k);
      }
    }
  }

  // ---------- Which callback a waiter gets, whatever the ids ----------

  /** Who is in the map has not been looked up; who was taken, was taken by the first lookup, and gets its callback. */
  ghost predicate FirstOk(s: State, w: nat)
    requires w < |s.waiters|
  {
    var x := s.waiters[w];
    && (x.stage.Preparing? <==> DidRegister(w) !in s.log)
    && (x.key in s.desk.pending && s.desk.pending[x.key] == w ==> FirstLookUp(s.log, w, x.key).None?)
    && (x.takenBy.Some? ==> x.takenBy.value < |s.notifiers| && FirstLookUp(s.log, w, x.key) == x.takenBy)
    && (s.desk.CanReceive(w) ==> x.takenBy.Some? && s.desk.channels[w] == [s.notifiers[x.takenBy.value].callback])
    && (x.GotSomething() ==> x.takenBy.Some? && x.HasGot(s.notifiers[x.takenBy.value].callback))
  }

  lemma RegisterKeepsFirst(s: State, w: nat, v: nat)
    requires Slots(s) && w < |s.waiters| && s.waiters[w].stage.Preparing? && v < |s.waiters| && FirstOk(s, v)
    ensures v < |WaiterStep(s, w, true).waiters| && FirstOk(WaiterStep(s, w, true), v)
  {
    assert Untouched(s.waiters[w]);
    LogGrows(s.log, DidRegister(w), v, s.waiters[v].key);
    if v == w {
      UnregisteredUnseen(s.log, w, s.waiters[w].key);
    }
  }

  lemma OwnKeepsFirst(s: State, w: nat, ok: bool)
    requires w < |s.waiters| && !s.waiters[w].stage.Preparing? && FirstOk(s, w)
    ensures w < |WaiterStep(s, w, ok).waiters| && FirstOk(WaiterStep(s, w, ok), w)
  {
  }

  lemma WaiterKeepsFirst(s: State, w: nat, ok: bool, v: nat)
    requires Slots(s) && w < |s.waiters| && v < |s.waiters| && FirstOk(s, v)
    ensures v < |WaiterStep(s, w, ok).waiters| && FirstOk(WaiterStep(s, w, ok), v)
  {
    if s.waiters[w].stage.Preparing? {
      RegisterKeepsFirst(s, w, v);
    } else if v == w {
      OwnKeepsFirst(s, w, ok);
    } else {
      var s' := WaiterStep(s, w, ok);
      assert s'.log == s.log && s'.notifiers == s.notifiers && s'.waiters[v] == s.waiters[v];
    }
  }

  lemma LookUpKeepsFirst(s: State, n: nat, v: nat)
    requires Slots(s) && n < |s.notifiers| && s.notifiers[n].holding.None? && s.notifiers[n].at < |s.notifiers[n].plan|
    requires v < |s.waiters| && FirstOk(s, v)
    ensures v < |LookUp(s, n).waiters| && FirstOk(LookUp(s, n), v)
  {
    var key := (s.notifiers[n].plan[s.notifiers[n].at], s.notifiers[n].msgId);
    LogGrows(s.log, DidLookUp(n, key), v, s.waiters[v].key);
    if key in s.desk.pending {
      assert EntryOk(s, key);
    }
  }

  lemma SendKeepsFirst(s: State, n: nat, v: nat)
    requires Slots(s) && n < |s.notifiers| && s.notifiers[n].holding.Some? && v < |s.waiters| && FirstOk(s, v)
    ensures v < |NotifierStep(s, n).waiters| && FirstOk(NotifierStep(s, n), v)
  {
    assert HandOk(s, n);
  }

  lemma StepKeepsFirst(s: State, a: Action, v: nat)
    requires Slots(s) && v < |s.waiters| && FirstOk(s, v)
    ensures v < |Step(s, a).waiters| && FirstOk(Step(s, a), v)
  {
    match a
    case Wait(w, ok) =>
      if w < |s.waiters| {
        WaiterKeepsFirst(s, w, ok, v);
      }
    case Notify(n) =>
      if n < |s.notifiers| {
        if s.notifiers[n].holding.Some? {
          SendKeepsFirst(s, n, v);
        } else if s.notifiers[n].at < |s.notifiers[n].plan| {
          LookUpKeepsFirst(s, n, v);
        }
      }
  }

  lemma {:induction false} FirstReachable(keys: seq<Key>, callbacks: seq<Notifier>, actions: seq<Action>)
    ensures var s := Run(Start(keys, callbacks), actions);
            |s.waiters| == |keys| && forall w :: 0 <= w < |keys| ==> FirstOk(s, w)
  {
    if actions != [] {
      var m := |actions| - 1;
      FirstReachable(keys, callbacks, actions[..m]);
      SlotsReachable(keys, callbacks, actions[..m]);
      KeysKept(keys, callbacks, actions);
      forall w | 0 <= w < |keys| ensures FirstOk(Run(Start(keys, callbacks), actions), w) {
        StepKeepsFirst(Run(Start(keys, callbacks), actions[..m]), actions[m], w);
      }
    }
  }

  /**
   A waiter that got a callback got the one whose lookup of its key was the first
   after it registered; early ones (before registering), late and duplicate ones
   have no effect on it.
   */
  lemma GotTheFirst(keys: seq<Key>, callbacks: seq<Notifier>, actions: seq<Action>, w: nat, c: Callback)
    requires w < |Run(Start(keys, callbacks), actions).waiters|
    requires Run(Start(keys, callbacks), actions).waiters[w].stage == Returned(Got(c))
    ensures var s := Run(Start(keys, callbacks), actions);
            var first := FirstLookUp(s.log, w, s.waiters[w].key);
            first.Some? && first.value < |s.notifiers| && s.notifiers[first.value].callback == c
  {
    FirstReachable(keys, callbacks, actions);
    assert FirstOk(Run(Start(keys, callbacks), actions), w);
  }

  // ---------- How many waiters one callback reaches ----------

  /** A callback notifies each service at most once. */
  predicate OncePerService(plan: seq<Service>) {
    forall i, j :: 0 <= i < j < |plan| ==> plan[i] != plan[j]
  }

  /** The services that notifier `n` has already looked in. */
  function LookedIn(x: Notifier): seq<Service> {
    if x.at < |x.plan| then x.plan[..if x.holding.Some? then x.at + 1 else x.at] else x.plan
  }

  /** Whoever notifier `n` took waits under its id in a service it has looked in, and no two of them in the same one. */
  predicate TakenWhereLooked(s: State, n: nat)
    requires n < |s.notifiers|
  {
    && (forall v :: 0 <= v < |s.waiters| && s.waiters[v].takenBy == Some(n)
          ==> s.waiters[v].key.1 == s.notifiers[n].msgId && s.waiters[v].key.0 in LookedIn(s.notifiers[n]))
    && (forall v, w :: 0 <= v < w < |s.waiters| && s.waiters[v].takenBy == Some(n) && s.waiters[w].takenBy == Some(n)
          ==> s.waiters[v].key.0 != s.waiters[w].key.0)
  }

  predicate Looking(s: State) {
    forall n :: 0 <= n < |s.notifiers| ==>
      && OncePerService(s.notifiers[n].plan) && TakenWhereLooked(s, n)
      && (s.notifiers[n].holding.Some? ==> s.notifiers[n].at < |s.notifiers[n].plan|)
  }

  lemma WaiterKeepsLooking(s: State, w: nat, ok: bool)
    requires Looking(s) && w < |s.waiters|
    ensures Looking(WaiterStep(s, w, ok))
  {
    var s' := WaiterStep(s, w, ok);
    assert forall v :: 0 <= v < |s.waiters| ==> s'.waiters[v].takenBy == s.waiters[v].takenBy;
    assert forall v :: 0 <= v < |s.waiters| ==> s'.waiters[v].key == s.waiters[v].key;
    forall n | 0 <= n < |s'.notifiers| ensures TakenWhereLooked(s', n) {
      assert TakenWhereLooked(s, n);
    }
  }

  lemma NotifierKeepsLooking(s: State, n: nat, m: nat)
    requires Looking(s) && Slots(s) && n < |s.notifiers| && m < |s.notifiers|
    ensures m < |NotifierStep(s, n).notifiers| && TakenWhereLooked(NotifierStep(s, n), m)
  {
    var s', x := NotifierStep(s, n), s.notifiers[n];
    assert TakenWhereLooked(s, m) && OncePerService(x.plan);
    if x.holding.None? && x.at < |x.plan| {
      assert x.plan[..x.at + 1] == x.plan[..x.at] + [x.plan[x.at]];
      assert x.plan[x.at] !in x.plan[..x.at];
      assert x.at + 1 == |x.plan| ==> x.plan[..x.at + 1] == x.plan;
      if (x.plan[x.at], x.msgId) in s.desk.pending {
        assert EntryOk(s, (x.plan[x.at], x.msgId));
      }
    } else if x.holding.Some? {
      assert x.at + 1 == |x.plan| ==> x.plan[..x.at + 1] == x.plan;
    }
  }

  lemma {:induction false} LookingReachable(keys: seq<Key>, callbacks: seq<Notifier>, actions: seq<Action>)
    requires forall n :: 0 <= n < |callbacks| ==> OncePerService(callbacks[n].plan)
    ensures Looking(Run(Start(keys, callbacks), actions))
  {
    if actions != [] {
      var m := |actions| - 1;
      LookingReachable(keys, callbacks, actions[..m]);
      SlotsReachable(keys, callbacks, actions[..m]);
      var s := Run(Start(keys, callbacks), actions[..m]);
      match actions[m]
      case Wait(w, ok) =>
        if w < |s.waiters| {
          WaiterKeepsLooking(s, w, ok);
        }
      case Notify(n) =>
        if n < |s.notifiers| {
          forall k | 0 <= k < |s.notifiers| ensures TakenWhereLooked(NotifierStep(s, n), k) {
            NotifierKeepsLooking(s, n, k);
          }
        }
    }
  }

  predicate ReachesTwo(s: State) {
    exists v, w :: && 0 <= v < w < |s.waiters| && s.waiters[v].takenBy.Some?
                   && s.waiters[v].takenBy == s.waiters[w].takenBy
  }

  /** No id is waited for in both services. */
  predicate Apart(keys: seq<Key>) {
    forall i, j :: 0 <= i < |keys| && 0 <= j < |keys| && keys[i].1 == keys[j].1 ==> keys[i].0 == keys[j].0
  }

  /** Whatever callbacks there are that notify each service at most once, none reaches two waiters. */
  ghost predicate ReachOne(keys: seq<Key>) {
    forall callbacks: seq<Notifier>, actions ::
      (forall n :: 0 <= n < |callbacks| ==> OncePerService(callbacks[n].plan))
      ==> !ReachesTwo(Run(Start(keys, callbacks), actions))
  }

  lemma ApartReachOne(keys: seq<Key>, callbacks: seq<Notifier>, actions: seq<Action>)
    requires Apart(keys) && forall n :: 0 <= n < |callbacks| ==> OncePerService(callbacks[n].plan)
    ensures !ReachesTwo(Run(Start(keys, callbacks), actions))
  {
    var s := Run(Start(keys, callbacks), actions);
    LookingReachable(keys, callbacks, actions);
    KeysKept(keys, callbacks, actions);
    forall v, w | 0 <= v < w < |s.waiters| && s.waiters[v].takenBy.Some?
      ensures s.waiters[v].takenBy != s.waiters[w].takenBy
    {
      TakersKept(keys, callbacks, actions, v);
      assert TakenWhereLooked(s, s.waiters[v].takenBy.value);
      assert keys[v].1 == keys[w].1 ==> keys[v].0 == keys[w].0;
    }
  }

  lemma {:induction false} TakersKept(keys: seq<Key>, callbacks: seq<Notifier>, actions: seq<Action>, v: nat)
    ensures var s := Run(Start(keys, callbacks), actions);
            |s.notifiers| == |callbacks|
            && (v < |s.waiters| && s.waiters[v].takenBy.Some? ==> s.waiters[v].takenBy.value < |callbacks|)
  {
    if actions != [] {
      TakersKept(keys, callbacks, actions[..|actions| - 1], v);
    }
  }

  lemma {:induction false} KeysKept(keys: seq<Key>, callbacks: seq<Notifier>, actions: seq<Action>)
    ensures var s := Run(Start(keys, callbacks), actions);
            |s.waiters| == |keys| && forall w :: 0 <= w < |keys| ==> s.waiters[w].key == keys[w]
  {
    if actions != [] {
      KeysKept(keys, callbacks, actions[..|actions| - 1]);
    }
  }

  /** A rejection of the id that waiters `i` and `j` wait for in different services. */
  function Rejection(keys: seq<Key>, i: nat, j: nat): Notifier
    requires i < |keys| && j < |keys|
  {
    Notifier(keys[i].1, Callback(0, None), [keys[i].0, keys[j].0], 0, None)
  }

  lemma BothRegister(keys: seq<Key>, i: nat, j: nat)
    requires i < |keys| && j < |keys| && keys[i].1 == keys[j].1 && keys[i].0 != keys[j].0
    ensures var s := Run(Start(keys, [Rejection(keys, i, j)]), [Wait(i, true), Wait(j, true)]);
            && |s.waiters| == |keys| && s.waiters[i].takenBy == None && s.waiters[j].takenBy == None
            && s.desk == Desk(map[keys[i] := i, keys[j] := j], map[i := [], j := []])
            && s.notifiers == [Rejection(keys, i, j)]
  {
    var s0 := Start(keys, [Rejection(keys, i, j)]);
    assert Run(s0, []) == s0 && [] + [Wait(i, true)] == [Wait(i, true)];
    RunSnoc(s0, [], Wait(i, true));
    RunSnoc(s0, [Wait(i, true)], Wait(j, true));
    assert s0.notifiers == [Rejection(keys, i, j)];
    assert [Wait(i, true)] + [Wait(j, true)] == [Wait(i, true), Wait(j, true)];
  }

  lemma BothTaken(s: State, keys: seq<Key>, i: nat, j: nat)
    requires i < |keys| && j < |keys| && keys[i].1 == keys[j].1 && keys[i].0 != keys[j].0
    requires |s.waiters| == |keys| && s.desk == Desk(map[keys[i] := i, keys[j] := j], map[i := [], j := []])
    requires s.notifiers == [Rejection(keys, i, j)]
    ensures ReachesTwo(Step(Step(Step(s, Notify(0)), Notify(0)), Notify(0)))
  {
    var s1 := Step(s, Notify(0));
    assert s1.notifiers[0].holding == Some(i) && s1.waiters[i].takenBy == Some(0);
    var s2 := Step(s1, Notify(0));
    assert s2.notifiers[0].holding == None && s2.notifiers[0].at == 1 && s2.desk.pending[keys[j]] == j;
    var s3 := Step(s2, Notify(0));
    assert s3.waiters[j].takenBy == Some(0) && s3.waiters[i].takenBy == Some(0);
    if i < j {
      assert ReachesTwo(s3);
    }
  }

  /**
   No callback reaches two waiters, whatever the callbacks and the interleaving,
   if and only if no id is waited for in both services: an admi.002 looks in both
   maps, and takes an entry from each that has its id.
   */
  lemma OneWaiterPerCallback(keys: seq<Key>)
    ensures ReachOne(keys) <==> Apart(keys)
  {
    if Apart(keys) {
      forall callbacks: seq<Notifier>, actions | forall n :: 0 <= n < |callbacks| ==> OncePerService(callbacks[n].plan)
        ensures !ReachesTwo(Run(Start(keys, callbacks), actions))
      {
        ApartReachOne(keys, callbacks, actions);
      }
    } else {
      var i, j :| 0 <= i < |keys| && 0 <= j < |keys| && keys[i].1 == keys[j].1 && keys[i].0 != keys[j].0;
      RejectionReachesBoth(keys, i, j);
      assert forall n :: 0 <= n < 1 ==> OncePerService([Rejection(keys, i, j)][n].plan);
    }
  }

  lemma RejectionReachesBoth(keys: seq<Key>, i: nat, j: nat)
    requires i < |keys| && j < |keys| && keys[i].1 == keys[j].1 && keys[i].0 != keys[j].0
    ensures exists actions :: ReachesTwo(Run(Start(keys, [Rejection(keys, i, j)]), actions))
  {
    var start, acts := Start(keys, [Rejection(keys, i, j)]), [Wait(i, true), Wait(j, true)];
    BothRegister(keys, i, j);
    BothTaken(Run(start, acts), keys, i, j);
    RunSnoc(start, acts, Notify(0));
    RunSnoc(start, acts + [Notify(0)], Notify(0));
    RunSnoc(start, acts + [Notify(0)] + [Notify(0)], Notify(0));
    assert ReachesTwo(Run(start, acts + [Notify(0)] + [Notify(0)] + [Notify(0)]));
  }

  // ---------- What every interleaving of distinct ids guarantees ----------

  /**
   A callback that found the waiter's entry is not lost, even when it came before
   the waiter reached its select: once sent it stays in the channel, and the
   select has it ready.
   */
  lemma EarlyCallbackKept(keys: seq<Key>, callbacks: seq<Notifier>, actions: seq<Action>, w: nat)
    requires Distinct(keys)
    requires w < |Run(Start(keys, callbacks), actions).waiters|
    ensures var s := Run(Start(keys, callbacks), actions);
            var x := s.waiters[w];
            FirstLookUp(s.log, w, x.key).Some? && (x.stage.Sending? || x.stage.Selecting?) ==>
              var n := FirstLookUp(s.log, w, x.key).value;
              && n < |s.notifiers|
              && (s.notifiers[n].holding == Some(w)
                  || s.desk.channels == s.desk.channels[w := [s.notifiers[n].callback]])
              && (x.stage.Selecting? && s.notifiers[n].holding != Some(w)
                  ==> Step(s, Wait(w, true)).waiters[w].stage == Leaving(Got(s.notifiers[n].callback)))
  {
    Reachable(keys, callbacks, actions);
    assert WaiterOk(Run(Start(keys, callbacks), actions), w);
  }

  // ---------- Termination ----------

  function WaiterLeft(x: Waiter): nat {
    match x.stage
    case Preparing => 4
    case Sending => 3
    case Selecting => 2
    case Leaving(_) => 1
    case Returned(_) => 0
  }

  /** How often `actions` lets waiter `w` fail, time out, or take its next step. */
  function Nudges(actions: seq<Action>, w: nat): nat {
    if actions == [] then 0
    else Nudges(actions[..|actions| - 1], w) + if actions[|actions| - 1] == Wait(w, false) then 1 else 0
  }

  /** No step of anybody sets a waiter back, and a nudge brings an unreturned one forward. */
  lemma StepBringsForward(s: State, a: Action, w: nat)
    requires w < |s.waiters|
    ensures |Step(s, a).waiters| == |s.waiters|
    ensures WaiterLeft(Step(s, a).waiters[w]) <= WaiterLeft(s.waiters[w])
    ensures a == Wait(w, false) && !s.waiters[w].stage.Returned?
            ==> WaiterLeft(Step(s, a).waiters[w]) < WaiterLeft(s.waiters[w])
  {
  }

  lemma {:induction false} RunBringsForward(s: State, actions: seq<Action>, w: nat)
    requires w < |s.waiters|
    ensures var s' := Run(s, actions);
            && |s'.waiters| == |s.waiters|
            && (s'.waiters[w].stage.Returned?
                || WaiterLeft(s'.waiters[w]) + Nudges(actions, w) <= WaiterLeft(s.waiters[w]))
  {
    if actions != [] {
      var m := |actions| - 1;
      RunBringsForward(s, actions[..m], w);
      StepBringsForward(Run(s, actions[..m]), actions[m], w);
    }
  }

  /**
   In any interleaving with other waiters and any callbacks, a waiter has
   returned with an outcome once it was given as many steps as it had left, four
   from the start, even if none of them finds a callback.
   */
  lemma WaiterAlwaysReturns(s: State, actions: seq<Action>, w: nat)
    requires w < |s.waiters| && Nudges(actions, w) >= WaiterLeft(s.waiters[w])
    ensures w < |Run(s, actions).waiters| && Run(s, actions).waiters[w].stage.Returned?
  {
    RunBringsForward(s, actions, w);
  }

  // ---------- What a notification does ----------

  /** The keys that notifier `n` has looked up, in order. */
  function LookUpsBy(log: seq<Event>, n: nat): seq<Key> {
    if log == [] then []
    else
      var before, last := LookUpsBy(log[..|log| - 1], n), log[|log| - 1];
      if last.DidLookUp? && last.notifier == n then before + [last.key] else before
  }

  function KeysIn(services: seq<Service>, id: MsgId): (keys: seq<Key>)
    ensures |keys| == |services| && forall i :: 0 <= i < |keys| ==> keys[i] == (services[i], id)
  {
    seq(|services|, i requires 0 <= i < |services| => (services[i], id))
  }

  /** It has looked in the first services of its plan, once each and in order, under its own id. */
  predicate LooksInOrder(s: State, n: nat)
    requires n < |s.notifiers|
  {
    var x := s.notifiers[n];
    && x.at <= |x.plan| && (x.holding.Some? ==> x.at < |x.plan|)
    && LookUpsBy(s.log, n) == KeysIn(LookedIn(x), x.msgId)
  }

  lemma LookUpsGrow(log: seq<Event>, e: Event, n: nat)
    ensures LookUpsBy(log + [e], n)
            == LookUpsBy(log, n) + if e.DidLookUp? && e.notifier == n then [e.key] else []
  {
    assert (log + [e])[..|log|] == log;
  }

  /** A step that leaves notifier `n` alone, and the keys it has looked up. */
  lemma {:induction false} Overlooked(s: State, s': State, n: nat)
    requires n < |s.notifiers| && LooksInOrder(s, n)
    requires n < |s'.notifiers| && s'.notifiers[n] == s.notifiers[n] && LookUpsBy(s'.log, n) == LookUpsBy(s.log, n)
    ensures LooksInOrder(s', n)
  {
  }

  lemma {:induction false} WaiterKeepsLookUps(s: State, w: nat, ok: bool, n: nat)
    requires w < |s.waiters| && n < |s.notifiers| && LooksInOrder(s, n)
    ensures n < |WaiterStep(s, w, ok).notifiers| && LooksInOrder(WaiterStep(s, w, ok), n)
  {
    var s' := WaiterStep(s, w, ok);
    assert s'.notifiers == s.notifiers;
    if s.waiters[w].stage.Preparing? {
      LookUpsGrow(s.log, DidRegister(w), n);
    } else {
      assert s'.log == s.log;
    }
    Overlooked(s, s', n);
  }

  lemma KeysSnoc(services: seq<Service>, service: Service, id: MsgId)
    ensures KeysIn(services + [service], id) == KeysIn(services, id) + [(service, id)]
  {
  }

  lemma PlanSnoc(plan: seq<Service>, at: nat)
    requires at < |plan|
    ensures plan[..at + 1] == plan[..at] + [plan[at]]
    ensures at + 1 == |plan| ==> plan[..at + 1] == plan
  {
  }

  lemma {:induction false} SendKeepsLookUps(s: State, n: nat)
    requires n < |s.notifiers| && LooksInOrder(s, n) && s.notifiers[n].holding.Some?
    ensures n < |NotifierStep(s, n).notifiers| && LooksInOrder(NotifierStep(s, n), n)
  {
    PlanSnoc(s.notifiers[n].plan, s.notifiers[n].at);
  }

  lemma {:induction false} LookUpKeepsLookUps(s: State, n: nat)
    requires n < |s.notifiers| && LooksInOrder(s, n) && s.notifiers[n].holding.None?
    requires s.notifiers[n].at < |s.notifiers[n].plan|
    ensures n < |LookUp(s, n).notifiers| && LooksInOrder(LookUp(s, n), n)
  {
    var x := s.notifiers[n];
    PlanSnoc(x.plan, x.at);
    KeysSnoc(x.plan[..x.at], x.plan[x.at], x.msgId);
    LookUpsGrow(s.log, DidLookUp(n, (x.plan[x.at], x.msgId)), n);
  }

  lemma {:induction false} OtherKeepsLookUps(s: State, m: nat, n: nat)
    requires m < |s.notifiers| && n < |s.notifiers| && m != n && LooksInOrder(s, n)
    ensures n < |NotifierStep(s, m).notifiers| && LooksInOrder(NotifierStep(s, m), n)
  {
    var s', x := NotifierStep(s, m), s.notifiers[m];
    assert s'.notifiers[n] == s.notifiers[n];
    if x.holding.None? && x.at < |x.plan| {
      LookUpsGrow(s.log, DidLookUp(m, (x.plan[x.at], x.msgId)), n);
    } else {
      assert s'.log == s.log;
    }
    Overlooked(s, s', n);
  }

  lemma {:induction false} NotifierKeepsLookUps(s: State, m: nat, n: nat)
    requires m < |s.notifiers| && n < |s.notifiers| && LooksInOrder(s, n)
    ensures n < |NotifierStep(s, m).notifiers| && LooksInOrder(NotifierStep(s, m), n)
  {
    var x := s.notifiers[m];
    if m != n {
      OtherKeepsLookUps(s, m, n);
    } else if x.holding.Some? {
      SendKeepsLookUps(s, n);
    } else if x.at < |x.plan| {
      LookUpKeepsLookUps(s, n);
    } else {
      assert NotifierStep(s, m) == s;
    }
  }

  function NotifierLeft(x: Notifier): nat {
    if x.at >= |x.plan| then 0 else 2 * (|x.plan| - x.at) - if x.holding.Some? then 1 else 0
  }

  function Turns(actions: seq<Action>, n: nat): nat {
    if actions == [] then 0
    else Turns(actions[..|actions| - 1], n) + if actions[|actions| - 1] == Notify(n) then 1 else 0
  }

  lemma StepLeaves(s: State, a: Action, n: nat)
    requires Slots(s) && n < |s.notifiers|
    ensures n < |Step(s, a).notifiers|
    ensures var x, x' := s.notifiers[n], Step(s, a).notifiers[n];
            && x'.plan == x.plan && x'.msgId == x.msgId && NotifierLeft(x') <= NotifierLeft(x)
            && (a == Notify(n) && NotifierLeft(x) > 0 ==> NotifierLeft(x') < NotifierLeft(x))
  {
    if a.Notify? && a.notifier < |s.notifiers| {
      NotifierKeepsSlots(s, a.notifier);
    }
  }

  predicate Notified(s: State, n: nat, first: Notifier, turns: nat) {
    && n < |s.notifiers| && s.notifiers[n].plan == first.plan && s.notifiers[n].msgId == first.msgId
    && LooksInOrder(s, n)
    && (NotifierLeft(s.notifiers[n]) == 0 || NotifierLeft(s.notifiers[n]) + turns <= 2 * |first.plan|)
  }

  lemma {:induction false} StepNotifies(s: State, a: Action, n: nat, first: Notifier, turns: nat)
    requires Slots(s) && Notified(s, n, first, turns)
    ensures Notified(Step(s, a), n, first, turns + if a == Notify(n) then 1 else 0)
  {
    StepLeaves(s, a, n);
    match a
    case Wait(w, ok) =>
      if w < |s.waiters| {
        WaiterKeepsLookUps(s, w, ok, n);
      }
    case Notify(m) =>
      if m < |s.notifiers| {
        NotifierKeepsLookUps(s, m, n);
      }
  }

  lemma {:induction false} NotifiedAfter(keys: seq<Key>, callbacks: seq<Notifier>, actions: seq<Action>, n: nat)
    requires n < |callbacks|
    ensures Notified(Run(Start(keys, callbacks), actions), n, callbacks[n], Turns(actions, n))
  {
    if actions == [] {
      var x := Start(keys, callbacks).notifiers[n];
      assert LookUpsBy([], n) == KeysIn(LookedIn(x), x.msgId);
    } else {
      var m := |actions| - 1;
      SlotsReachable(keys, callbacks, actions[..m]);
      NotifiedAfter(keys, callbacks, actions[..m], n);
      StepNotifies(Run(Start(keys, callbacks), actions[..m]), actions[m], n, callbacks[n], Turns(actions[..m], n));
    }
  }

  /**
   In any interleaving a notification has looked its id up in the first services
   of its plan, once each and in order; after two turns for each of them it is
   over, with all of them looked up and no channel in its hands.
   */
  lemma NotificationFinishes(keys: seq<Key>, callbacks: seq<Notifier>, actions: seq<Action>, n: nat)
    requires n < |callbacks|
    ensures var s, all := Run(Start(keys, callbacks), actions), KeysIn(callbacks[n].plan, callbacks[n].msgId);
            && n < |s.notifiers| && LookUpsBy(s.log, n) <= all
            && (Turns(actions, n) >= 2 * |callbacks[n].plan|
                ==> LookUpsBy(s.log, n) == all && s.notifiers[n].holding.None?)
  {
    NotifiedAfter(keys, callbacks, actions, n);
  }

  // ---------- How a waiter ends ----------

  /** The choices made at waiter `w`'s own actions, in order: at the second, whether its request was sent. */
  function OwnChoices(actions: seq<Action>, w: nat): seq<bool> {
    if actions == [] then []
    else
      var before, last := OwnChoices(actions[..|actions| - 1], w), actions[|actions| - 1];
      if last.Wait? && last.waiter == w then before + [last.ok] else before
  }

  predicate EndsWith(x: Waiter, outcome: Outcome) {
    x.stage == Leaving(outcome) || x.stage == Returned(outcome)
  }

  /** A waiter whose request could not be sent is on its way out with that error, whatever else happens. */
  predicate SendDecides(x: Waiter, own: seq<bool>) {
    && (x.stage.Preparing? <==> |own| == 0)
    && (x.stage.Sending? <==> |own| == 1)
    && (|own| >= 2 ==> (EndsWith(x, SendFailed) <==> !own[1]))
    && (|own| == 2 ==> x.stage == if own[1] then Selecting else Leaving(SendFailed))
    && (x.stage.Leaving? ==> |own| >= 2) && (x.stage.Returned? ==> |own| >= 3)
    && (|own| >= 3 && !own[1] ==> x.stage == Returned(SendFailed))
  }

  lemma OwnAfter(actions: seq<Action>, a: Action, w: nat)
    ensures OwnChoices(actions + [a], w) == OwnChoices(actions, w) + if a.Wait? && a.waiter == w then [a.ok] else []
  {
    assert (actions + [a])[..|actions|] == actions;
  }

  lemma StepDecides(s: State, a: Action, w: nat, own: seq<bool>)
    requires w < |s.waiters| && SendDecides(s.waiters[w], own)
    ensures w < |Step(s, a).waiters|
    ensures SendDecides(Step(s, a).waiters[w], own + if a.Wait? && a.waiter == w then [a.ok] else [])
  {
    var x := s.waiters[w];
    if a == Wait(w, true) || a == Wait(w, false) {
      var own' := own + [a.ok];
      assert |own| >= 2 ==> own'[1] == own[1];
    } else {
      assert own + [] == own;
      assert Step(s, a).waiters[w].stage == x.stage;
    }
  }

  /**
   A waiter's send fails, which is its second own action, if and only if it leaves
   with that error and with nothing else: it never comes to the select, and no
   callback reaches it, whatever the interleaving.
   */
  lemma {:induction false} FailedSendEnds(keys: seq<Key>, callbacks: seq<Notifier>, actions: seq<Action>, w: nat)
    requires w < |keys|
    ensures var s := Run(Start(keys, callbacks), actions);
            && w < |s.waiters| && SendDecides(s.waiters[w], OwnChoices(actions, w))
            && (|OwnChoices(actions, w)| >= 2 && !OwnChoices(actions, w)[1]
                ==> !s.waiters[w].stage.Selecting? && !s.waiters[w].GotSomething())
  {
    if actions != [] {
      var m := |actions| - 1;
      FailedSendEnds(keys, callbacks, actions[..m], w);
      OwnAfter(actions[..m], actions[m], w);
      assert actions == actions[..m] + [actions[m]];
      StepDecides(Run(Start(keys, callbacks), actions[..m]), actions[m], w, OwnChoices(actions[..m], w));
    }
  }

  /**
   At the `k`-th action waiter `w` was at its select and the timer won, or it took that
   callback out of its channel.
   */
  predicate SelectsAt(start: State, actions: seq<Action>, w: nat, k: int, outcome: Outcome) {
    && 0 <= k < |actions|
    && var s := Run(start, actions[..k]);
       && w < |s.waiters| && s.waiters[w].stage.Selecting?
       && match outcome
          case SendFailed => false
          case TimedOut => actions[k] == Wait(w, false)
          case Got(c) => actions[k] == Wait(w, true) && s.desk.CanReceive(w) && s.desk.channels[w][0] == c
  }

  ghost predicate HasSelected(start: State, actions: seq<Action>, w: nat, outcome: Outcome) {
    exists k :: SelectsAt(start, actions, w, k, outcome)
  }

  lemma SelectsEarlier(start: State, front: seq<Action>, a: Action, w: nat, k: int, outcome: Outcome)
    requires k < |front|
    ensures SelectsAt(start, front + [a], w, k, outcome) <==> SelectsAt(start, front, w, k, outcome)
  {
    if 0 <= k {
      assert (front + [a])[..k] == front[..k] && (front + [a])[k] == front[k];
    }
  }

  lemma HasSelectedGrows(start: State, front: seq<Action>, a: Action, w: nat, outcome: Outcome)
    ensures HasSelected(start, front + [a], w, outcome)
            <==> HasSelected(start, front, w, outcome) || SelectsAt(start, front + [a], w, |front|, outcome)
  {
    if HasSelected(start, front, w, outcome) {
      var k :| SelectsAt(start, front, w, k, outcome);
      SelectsEarlier(start, front, a, w, k, outcome);
    }
    if HasSelected(start, front + [a], w, outcome) {
      var k :| SelectsAt(start, front + [a], w, k, outcome);
      if k < |front| {
        SelectsEarlier(start, front, a, w, k, outcome);
      }
    }
  }

  /**
   A waiter ends with a timeout if and only if the timer won at its select, and
   with a callback if and only if it took that callback out of its channel there.
   */
  lemma {:induction false} SelectDecides(keys: seq<Key>, callbacks: seq<Notifier>, actions: seq<Action>, w: nat,
                                         outcome: Outcome)
    requires w < |keys| && !outcome.SendFailed?
    ensures var start := Start(keys, callbacks);
            && w < |Run(start, actions).waiters|
            && (EndsWith(Run(start, actions).waiters[w], outcome) <==> HasSelected(start, actions, w, outcome))
  {
    var start := Start(keys, callbacks);
    if actions != [] {
      var m := |actions| - 1;
      var front, a := actions[..m], actions[m];
      assert actions == front + [a];
      SelectDecides(keys, callbacks, front, w, outcome);
      HasSelectedGrows(start, front, a, w, outcome);
      RunSnoc(start, front, a);
      assert actions[..m] == front;
      EndsGrow(Run(start, front), a, w, outcome);
    }
  }

  /** Only a step at its own select lets a waiter begin to end with a timeout or a callback. */
  lemma EndsGrow(s: State, a: Action, w: nat, outcome: Outcome)
    requires w < |s.waiters| && !outcome.SendFailed?
    ensures w < |Step(s, a).waiters|
    ensures EndsWith(Step(s, a).waiters[w], outcome)
            <==> EndsWith(s.waiters[w], outcome)
                 || (s.waiters[w].stage.Selecting?
                     && match outcome
                        case TimedOut => a == Wait(w, false)
                        case Got(c) => a == Wait(w, true) && s.desk.CanReceive(w) && s.desk.channels[w][0] == c)
  {
  }

  // ---------- When callbacks are lost ----------

  /**
   The callback for `w` looked its id up while it was waiting, and has reached it neither in
   the channel nor in anyone's hands.
   */
  predicate LostAt(s: State, w: nat) {
    && w < |s.waiters| && s.waiters[w].stage.Selecting?
    && FirstLookUp(s.log, w, s.waiters[w].key).Some?
    && w in s.desk.channels && s.desk.channels[w] == []
    && forall n :: 0 <= n < |s.notifiers| ==> s.notifiers[n].holding != Some(w)
  }

  ghost predicate NothingLost(keys: seq<Key>) {
    forall callbacks, actions, w :: !LostAt(Run(Start(keys, callbacks), actions), w)
  }

  lemma DistinctNotLost(keys: seq<Key>, callbacks: seq<Notifier>, actions: seq<Action>, w: nat)
    requires Distinct(keys)
    ensures !LostAt(Run(Start(keys, callbacks), actions), w)
  {
    Reachable(keys, callbacks, actions);
    var s := Run(Start(keys, callbacks), actions);
    if w < |s.waiters| {
      assert WaiterOk(s, w);
    }
  }

  /** One callback for the id of waiter `i`. */
  function Answer(keys: seq<Key>, i: nat): Notifier
    requires i < |keys|
  {
    Notifier(keys[i].1, Callback(0, None), [keys[i].0], 0, None)
  }

  /** Waiter `i` sends its request and waits; then `j`, under the same id, registers and hides its entry. */
  lemma SharedKeyHides(keys: seq<Key>, i: nat, j: nat)
    requires i < |keys| && j < |keys| && i != j && keys[i] == keys[j]
    ensures var s := Run(Start(keys, [Answer(keys, i)]), [Wait(i, true), Wait(i, true), Wait(j, true)]);
            && |s.waiters| == |keys| && s.waiters[i] == Waiter(keys[i], Selecting, None) && s.waiters[j].key == keys[i]
            && s.desk == Desk(map[keys[i] := j], map[i := [], j := []])
            && s.notifiers == [Answer(keys, i)] && s.log == [DidRegister(i), DidRegister(j)]
  {
    var s0 := Start(keys, [Answer(keys, i)]);
    var s1 := Step(s0, Wait(i, true));
    var s2 := Step(s1, Wait(i, true));
    var s3 := Step(s2, Wait(j, true));
    var one := [Wait(i, true)];
    assert Run(s0, []) == s0 && [] + one == one;
    RunSnoc(s0, [], Wait(i, true));
    RunSnoc(s0, one, Wait(i, true));
    RunSnoc(s0, one + [Wait(i, true)], Wait(j, true));
    assert one + [Wait(i, true)] + [Wait(j, true)] == [Wait(i, true), Wait(i, true), Wait(j, true)];
    assert Run(s0, [Wait(i, true), Wait(i, true), Wait(j, true)]) == s3;
    assert s0.notifiers == [Answer(keys, i)];
    assert s3.log == [DidRegister(i)] + [DidRegister(j)];
  }

  /** The callback takes the entry of `j` and sends to it; nothing is left for `i`. */
  lemma SharedKeyLoses(s: State, key: Key, i: nat, j: nat)
    requires i < |s.waiters| && j < |s.waiters| && i != j
    requires s.waiters[i] == Waiter(key, Selecting, None)
    requires s.desk == Desk(map[key := j], map[i := [], j := []])
    requires s.notifiers == [Notifier(key.1, Callback(0, None), [key.0], 0, None)]
    requires s.log == [DidRegister(i), DidRegister(j)]
    ensures LostAt(Step(Step(s, Notify(0)), Notify(0)), i)
  {
    var s1 := Step(s, Notify(0));
    assert s1.notifiers[0].holding == Some(j) && s1.waiters[i] == s.waiters[i];
    assert s1.log == s.log + [DidLookUp(0, key)];
    SeesLookUp(s.log, i, j, key);
  }

  lemma SeesLookUp(log: seq<Event>, i: nat, j: nat, key: Key)
    requires log == [DidRegister(i), DidRegister(j)]
    ensures FirstLookUp(log + [DidLookUp(0, key)], i, key) == Some(0)
  {
    LogGrows(log, DidLookUp(0, key), i, key);
    assert log == [DidRegister(i)] + [DidRegister(j)] && log[0] == DidRegister(i);
    LogGrows([DidRegister(i)], DidRegister(j), i, key);
    assert [DidRegister(i)] == [] + [DidRegister(i)];
    LogGrows([], DidRegister(i), i, key);
  }

  /**
   A callback that found its id registered is never lost, whatever the callbacks
   and the interleaving, if and only if no two waiters use one message id with
   one service.
   */
  lemma LostExactlyOnSharedId(keys: seq<Key>)
    ensures NothingLost(keys) <==> Distinct(keys)
  {
    if Distinct(keys) {
      forall callbacks, actions, w ensures !LostAt(Run(Start(keys, callbacks), actions), w) {
        DistinctNotLost(keys, callbacks, actions, w);
      }
    } else {
      var i, j :| 0 <= i < |keys| && 0 <= j < |keys| && i != j && keys[i] == keys[j];
      var start, acts := Start(keys, [Answer(keys, i)]), [Wait(i, true), Wait(i, true), Wait(j, true)];
      SharedKeyHides(keys, i, j);
      SharedKeyLoses(Run(start, acts), keys[i], i, j);
      RunSnoc(start, acts, Notify(0));
      RunSnoc(start, acts + [Notify(0)], Notify(0));
      assert LostAt(Run(start, acts + [Notify(0)] + [Notify(0)]), i);
    }
  }
}
