/** The one warm MT5 login of the process: reuse, swap, pin, invalidate, reap, shut down. */
module Mt5Session {
  import opened Options

  /** (login, server) */
  datatype Key = Key(login: int, server: string)

  const IDLE_TIMEOUT := 300.0

  datatype TaskState = Running | Finished | Cancelled

  /** The value of a `LiveSession` object. */
  datatype Live = Live(key: Key, connected: bool, lastUsed: real, pins: nat)

  /** The module's globals, every reaper task ever started, and the account the terminal is logged in to. */
  datatype State = State(
    live: Option<Live>, reaper: Option<nat>, tasks: seq<TaskState>, lockHeld: bool, terminal: Option<Key>)

  /** How a call ends: it gets its session, a different account is pinned, `initialize` failed, or MT5 is not
      installed. */
  datatype Outcome = Acquired | Busy | ConnectFailed | NotInstalled

  /** What `initialize` does: log in, or fail and leave the terminal in some state. */
  datatype Broker = LogsIn | Fails(left: Option<Key>)

  /** One critical section under the lock. `Enter` keeps the lock until the matching `Leave`. */
  datatype Event =
    | Enter(key: Key, broker: Broker, now: real)
    | Leave(now: real)
    | Pin(key: Key, broker: Broker, now: real)
    | Unpin
    | Invalidate
    | ForceShutdown
    | ReaperTick(task: nat, now: real)

  // ----- the protocol as functions on states

  function EnsureReaper(s: State): State {
    if s.reaper.Some? && s.reaper.value < |s.tasks| && s.tasks[s.reaper.value] == Running then s
    else s.(reaper := Some(|s.tasks|), tasks := s.tasks + [Running])
  }

  function Connect(installed: bool, s: State, key: Key, broker: Broker, now: real): (State, Outcome) {
    if !installed then (s, NotInstalled)
    else if broker.Fails? then (s.(terminal := broker.left), ConnectFailed)
    else (EnsureReaper(s.(terminal := Some(key), live := Some(Live(key, true, now, 0)))), Acquired)
  }

  function Acquire(installed: bool, s: State, key: Key, broker: Broker, now: real): (State, Outcome) {
    if s.live.Some? && s.live.value.connected then
      if s.live.value.key == key then (s.(live := Some(s.live.value.(lastUsed := now))), Acquired)
      else if s.live.value.pins > 0 then (s, Busy)
      else Connect(installed, s.(live := None, terminal := if installed then None else s.terminal), key, broker, now)
    else Connect(installed, s, key, broker, now)
  }

  /** The lock is free, or this is the burst that holds it; a reaper only ticks while it runs. */
  predicate Enabled(s: State, e: Event) {
    if e.Leave? then s.lockHeld
    else !s.lockHeld && (e.ReaperTick? ==> e.task < |s.tasks| && s.tasks[e.task] == Running)
  }

  function Apply(installed: bool, s: State, e: Event): State
    requires Enabled(s, e)
  {
    match e
    case Enter(key, broker, now) =>
      var (t, r) := Acquire(installed, s, key, broker, now);
      if r == Acquired then t.(lockHeld := true) else t
    case Leave(now) =>
      s.(lockHeld := false, live := if s.live.Some? then Some(s.live.value.(lastUsed := now)) else None)
    case Pin(key, broker, now) =>
      var (t, r) := Acquire(installed, s, key, broker, now);
      if r == Acquired && t.live.Some? then t.(live := Some(t.live.value.(pins := t.live.value.pins + 1))) else t
    case Unpin =>
      if s.live.Some? && s.live.value.pins > 0 then s.(live := Some(s.live.value.(pins := s.live.value.pins - 1)))
      else s
    case Invalidate =>
      if s.live.Some? then s.(live := Some(s.live.value.(connected := false))) else s
    case ForceShutdown =>
      s.(reaper := None,
         tasks := if s.reaper.Some? && s.reaper.value < |s.tasks| && s.tasks[s.reaper.value] == Running
                  then s.tasks[s.reaper.value := Cancelled] else s.tasks,
         terminal := if s.live.Some? && s.live.value.connected && installed then None else s.terminal,
         live := None)
    case ReaperTick(task, now) =>
      if s.live.None? then s.(tasks := s.tasks[task := Finished])
      else if s.live.value.pins > 0 then s
      else if now - s.live.value.lastUsed <= IDLE_TIMEOUT then s
      else s.(terminal := if installed then None else s.terminal, live := None, tasks := s.tasks[task := Finished])
  }

  const Fresh := State(None, None, [], false, None)

  /** The state after a list of events, each enabled when it happens. */
  ghost predicate Possible(installed: bool, s: State, es: seq<Event>)
    decreases |es|, 0
  {
    es == [] || (Possible(installed, s, es[..|es| - 1]) && Enabled(Run(installed, s, es[..|es| - 1]), es[|es| - 1]))
  }

  ghost function Run(installed: bool, s: State, es: seq<Event>): State
    requires Possible(installed, s, es)
    decreases |es|, 1
  {
    if es == [] then s else Apply(installed, Run(installed, s, es[..|es| - 1]), es[|es| - 1])
  }

  // ----- safety

  /** A connected session is the account the terminal is logged in to. */
  ghost predicate LoginAgrees(s: State) {
    s.live.Some? && s.live.value.connected ==> s.terminal == Some(s.live.value.key)
  }

  /** Only the registered reaper can be running, and it runs whenever a session exists. */
  ghost predicate OneReaper(s: State) {
    && (s.reaper.Some? ==> s.reaper.value < |s.tasks|)
    && (forall t | 0 <= t < |s.tasks| && s.tasks[t] == Running :: s.reaper == Some(t))
    && (s.live.Some? ==> s.reaper.Some? && s.tasks[s.reaper.value] == Running)
  }

  ghost predicate Safe(s: State) {
    LoginAgrees(s) && OneReaper(s)
  }

  lemma {:induction false} AcquireIsSafe(installed: bool, s: State, key: Key, broker: Broker, now: real)
    requires Safe(s)
    ensures var (t, r) := Acquire(installed, s, key, broker, now);
      && Safe(t) && t.lockHeld == s.lockHeld
      && (r == Acquired ==>
           t.live.Some? && t.live.value.key == key && t.live.value.connected && t.live.value.lastUsed == now)
      && (r == Busy ==> t == s && s.live.value.pins > 0 && s.live.value.key != key)
  {
  }

  lemma {:induction false} ApplyIsSafe(installed: bool, s: State, e: Event)
    requires Safe(s) && Enabled(s, e)
    ensures Safe(Apply(installed, s, e))
  {
    if e.Enter? || e.Pin? {
      AcquireIsSafe(installed, s, e.key, e.broker, e.now);
      hide Acquire;
    }
  }

  /** Every reachable state is safe: the cached session is the real login, and exactly one reaper guards it. */
  lemma {:induction false} ReachableIsSafe(installed: bool, es: seq<Event>)
    requires Possible(installed, Fresh, es)
    ensures Safe(Run(installed, Fresh, es))
  {
    if es != [] {
      ReachableIsSafe(installed, es[..|es| - 1]);
      ApplyIsSafe(installed, Run(installed, Fresh, es[..|es| - 1]), es[|es| - 1]);
    }
  }

  /** Without the MT5 package there is never a session. */
  lemma {:induction false} NoSessionWithoutMt5(es: seq<Event>)
    requires Possible(false, Fresh, es)
    ensures Run(false, Fresh, es).live.None?
  {
    if es != [] {
      NoSessionWithoutMt5(es[..|es| - 1]);
    }
  }

  // ----- pinning

  /** Account `key` is connected and pinned `pins` times. */
  ghost predicate PinnedTo(s: State, key: Key, pins: int) {
    s.live.Some? && s.live.value.key == key && s.live.value.connected && s.live.value.pins == pins >= 1
  }

  /** A successful `pin_session` leaves its account connected and pinned, and the terminal logged in to it. */
  lemma {:induction false} PinTakesEffect(installed: bool, s: State, key: Key, broker: Broker, now: real)
    requires Safe(s) && Enabled(s, Pin(key, broker, now)) && Acquire(installed, s, key, broker, now).1 == Acquired
    ensures var t := Apply(installed, s, Pin(key, broker, now));
      t.live.Some? && PinnedTo(t, key, t.live.value.pins) && t.terminal == Some(key)
  {
    AcquireIsSafe(installed, s, key, broker, now);
  }

  /** Pins of `key` minus unpins. */
  function NetPins(es: seq<Event>, key: Key): int {
    if es == [] then 0
    else
      var e := es[|es| - 1];
      NetPins(es[..|es| - 1], key) + (if e.Pin? && e.key == key then 1 else if e.Unpin? then -1 else 0)
  }

  /** While pinned, one event keeps the session: other accounts are refused with nothing changed, reaper ticks change
      nothing, and only pins and unpins move the count. */
  lemma {:induction false} PinnedStep(installed: bool, s: State, e: Event, key: Key, pins: int)
    requires Enabled(s, e) && PinnedTo(s, key, pins) && !e.Invalidate? && !e.ForceShutdown?
    requires pins + NetPins([e], key) >= 1
    ensures PinnedTo(Apply(installed, s, e), key, pins + NetPins([e], key))
    ensures Apply(installed, s, e).terminal == s.terminal
    ensures (e.Enter? || e.Pin?) && e.key != key ==>
      Acquire(installed, s, e.key, e.broker, e.now) == (s, Busy) && Apply(installed, s, e) == s
    ensures e.ReaperTick? ==> Apply(installed, s, e) == s
  {
    assert NetPins([e], key) == (if e.Pin? && e.key == key then 1 else if e.Unpin? then -1 else 0) by {
      assert [e][..0] == [];
    }
  }

  /** From a pinned state, over any events without an invalidate or a forced shutdown and with never as many unpins as
      pins held, the account stays connected, the terminal stays logged in, and the pin count is exact. */
  lemma {:induction false} PinHolds(installed: bool, s: State, es: seq<Event>, key: Key)
    requires Possible(installed, s, es) && s.live.Some? && PinnedTo(s, key, s.live.value.pins) &&
             s.terminal == Some(key)
    requires forall e <- es :: !e.Invalidate? && !e.ForceShutdown?
    requires forall n: nat | n <= |es| :: s.live.value.pins + NetPins(es[..n], key) >= 1
    ensures PinnedTo(Run(installed, s, es), key, s.live.value.pins + NetPins(es, key))
    ensures Run(installed, s, es).terminal == Some(key)
  {
    hide Apply, PinnedTo, Enabled;
    if es == [] {
    } else {
      var n := |es| - 1;
      var init, e := es[..n], es[n];
      assert forall m: nat | m <= n :: init[..m] == es[..m];
      PinHolds(installed, s, init, key);
      assert NetPins(es, key) == NetPins(init, key) + NetPins([e], key) by {
        assert [e][..0] == [];
      }
      assert es[..n + 1] == es;
      PinnedStep(installed, Run(installed, s, init), e, key, s.live.value.pins + NetPins(init, key));
    }
  }

  /** The whole guarantee of `pin_session`: after it succeeds in any reachable state, it holds over every such
      continuation. */
  lemma {:induction false} PinnedSessionSurvives(installed: bool, before: seq<Event>, pin: Event, es: seq<Event>)
    requires Possible(installed, Fresh, before) && pin.Pin? && Enabled(Run(installed, Fresh, before), pin)
    requires Acquire(installed, Run(installed, Fresh, before), pin.key, pin.broker, pin.now).1 == Acquired
    requires Possible(installed, Apply(installed, Run(installed, Fresh, before), pin), es)
    requires forall e <- es :: !e.Invalidate? && !e.ForceShutdown?
    requires forall n: nat | n <= |es| :: 1 + NetPins(es[..n], pin.key) >= 1
    ensures var t := Run(installed, Apply(installed, Run(installed, Fresh, before), pin), es);
      t.live.Some? && t.live.value.key == pin.key && t.live.value.connected && t.live.value.pins >= 1 &&
        t.terminal == Some(pin.key)
  {
    var s := Run(installed, Fresh, before);
    ReachableIsSafe(installed, before);
    PinTakesEffect(installed, s, pin.key, pin.broker, pin.now);
    ApplyIsSafe(installed, s, pin);
    hide Run, Possible, Apply, Acquire, Enabled;
    PinHolds(installed, Apply(installed, s, pin), es, pin.key);
  }

  // ----- how a session ends

  /** The session of `s` is gone in `t`: there is none, or one for another account, or a fresh connection where the old
      one had been marked dead. */
  predicate Ends(s: State, t: State)
    requires s.live.Some?
  {
    || t.live.None?
    || t.live.value.key != s.live.value.key
    || (t.live.value.connected && !s.live.value.connected)
  }

  /** A session is torn down, or replaced by a new one with no pins but that of the call, only by a forced shutdown, by
      the reaper when unpinned and idle beyond the timeout, by an unpinned swap to another account, or by reconnecting
      after an invalidate. */
  lemma {:induction false} HowSessionsEnd(installed: bool, s: State, e: Event)
    requires Enabled(s, e) && s.live.Some?
    requires Ends(s, Apply(installed, s, e))
    ensures var t := Apply(installed, s, e); t.live.Some? ==> t.live.value.pins == if e.Pin? then 1 else 0
    ensures e.ForceShutdown?
         || (e.ReaperTick? && s.live.value.pins == 0 && e.now - s.live.value.lastUsed > 300.0)
         || ((e.Enter? || e.Pin?) && s.live.value.connected && s.live.value.pins == 0 && e.key != s.live.value.key)
         || ((e.Enter? || e.Pin?) && !s.live.value.connected)
  {
  }
}
