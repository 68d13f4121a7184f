/** How long a session lives: when the reaper ends it, what keeps it, and what replaces it. */
module Mt5Lifetimes {
  import opened Options
  import opened Mt5Session

  // ----- the reaper

  /** A tick finishes the reaper when there is no session. When there is one, the tick ends it exactly if it is unpinned
      and unused for more than 300 seconds: MT5 is logged out and the reaper finished. Otherwise nothing changes. */
  lemma {:induction false} TickEndsIff(installed: bool, s: State, task: nat, now: real)
    requires Enabled(s, ReaperTick(task, now))
    ensures var t := Apply(installed, s, ReaperTick(task, now));
      var ended := s.(live := None, terminal := if installed then None else s.terminal,
                      tasks := s.tasks[task := Finished]);
      if s.live.None? then t == s.(tasks := s.tasks[task := Finished])
      else if s.live.value.pins == 0 && now - s.live.value.lastUsed > 300.0 then t == ended
      else t == s
  {
  }

  /** Ticks of one reaper over a session that nobody uses: the session is gone afterwards exactly if it was unpinned and
      some tick came more than 300 seconds after its last use. */
  lemma {:induction false} UnusedSessionEndsIff(installed: bool, s: State, ticks: seq<Event>)
    requires Possible(installed, s, ticks) && s.live.Some? && forall e <- ticks :: e.ReaperTick?
    ensures var t := Run(installed, s, ticks);
      if s.live.value.pins == 0 && exists e <- ticks :: e.now > s.live.value.lastUsed + 300.0
      then t.live.None? && (installed ==> t.terminal.None?)
      else t == s
  {
    hide Apply, Enabled;
    if ticks != [] {
      var n := |ticks| - 1;
      var init, e := ticks[..n], ticks[n];
      assert ticks == init + [e];
      UnusedSessionEndsIff(installed, s, init);
      TickEndsIff(installed, Run(installed, s, init), e.task, e.now);
    }
  }

  /** Whatever happened before, a session that is unpinned and unused for more than 300 seconds can be ended as soon as
      nobody holds the lock: some reaper is awake to do it, and none is left running after it did. */
  lemma {:induction false} IdleSessionCanBeReaped(installed: bool, es: seq<Event>, now: real)
    requires Possible(installed, Fresh, es) && !Run(installed, Fresh, es).lockHeld
    requires var live := Run(installed, Fresh, es).live;
      live.Some? && live.value.pins == 0 && now > live.value.lastUsed + 300.0
    ensures exists task ::
      && Enabled(Run(installed, Fresh, es), ReaperTick(task, now))
      && var t := Apply(installed, Run(installed, Fresh, es), ReaperTick(task, now));
        t.live.None? && forall state <- t.tasks :: state != Running
  {
    var s := Run(installed, Fresh, es);
    ReachableIsSafe(installed, es);
    TickEndsIff(installed, s, s.reaper.value, now);
    hide Run, Possible;
  }

  // ----- use keeps a session

  /** The reading of the clock an event takes, if it takes one. */
  predicate ClockIn(e: Event, from: real, to: real) {
    match e
    case Enter(_, _, now) => from <= now <= to
    case Leave(now) => from <= now <= to
    case Pin(_, _, now) => from <= now <= to
    case ReaperTick(_, now) => from <= now <= to
    case _ => true
  }

  /** Nothing but the reaper's clock threatens the session of `key`. */
  predicate Harmless(e: Event, key: Key) {
    !e.Invalidate? && !e.ForceShutdown? && (e.Enter? || e.Pin? ==> e.key == key)
  }

  /** A session for `key` is connected and was used at `since` or later. */
  predicate UsedSince(s: State, key: Key, since: real) {
    s.live.Some? && s.live.value.connected && s.live.value.key == key && s.live.value.lastUsed >= since
  }

  /** Leaving a burst at time t keeps the session, stamps it with t, and frees the lock. */
  lemma {:induction false} LeaveStamps(installed: bool, s: State, t: real)
    requires Enabled(s, Leave(t)) && s.live.Some?
    ensures Apply(installed, s, Leave(t)) == s.(lockHeld := false, live := Some(s.live.value.(lastUsed := t)))
  {
  }

  /** From a use at time t on, whatever its account's own bursts, pins and unpins, and the reaper's ticks, no clock
      reading up to t + 300 ends the session. */
  lemma {:induction false} UsedSessionSurvives(installed: bool, s: State, es: seq<Event>, key: Key, t: real)
    requires Possible(installed, s, es) && UsedSince(s, key, t)
    requires forall e <- es :: Harmless(e, key) && ClockIn(e, t, t + 300.0)
    ensures UsedSince(Run(installed, s, es), key, t)
  {
    if es != [] {
      var n := |es| - 1;
      assert es[n] in es && forall e <- es[..n] :: e in es;
      UsedSessionSurvives(installed, s, es[..n], key, t);
    }
  }

  /** So a leave at time t forbids a reap up to t + 300. */
  lemma {:induction false} LeaveForbidsReap(installed: bool, s: State, es: seq<Event>, t: real)
    requires Enabled(s, Leave(t)) && s.live.Some? && s.live.value.connected
    requires Possible(installed, Apply(installed, s, Leave(t)), es)
    requires forall e <- es :: Harmless(e, s.live.value.key) && ClockIn(e, t, t + 300.0)
    ensures UsedSince(Run(installed, Apply(installed, s, Leave(t)), es), s.live.value.key, t)
  {
    LeaveStamps(installed, s, t);
    UsedSessionSurvives(installed, Apply(installed, s, Leave(t)), es, s.live.value.key, t);
  }

  // ----- what an acquisition does

  /** The session an acquisition connects: fresh, unpinned, for its account. */
  function Connected(key: Key, now: real): Live {
    Live(key, true, now, 0)
  }

  /** Connecting fails when MT5 is not installed or the broker refuses. */
  predicate Connects(installed: bool, broker: Broker) {
    installed && broker.LogsIn?
  }

  /** A burst of the account that is connected reuses the session: only its stamp and the lock change. */
  lemma {:induction false} EnterReuses(installed: bool, s: State, key: Key, broker: Broker, now: real)
    requires Enabled(s, Enter(key, broker, now)) && s.live.Some? && s.live.value.connected && s.live.value.key == key
    ensures Apply(installed, s, Enter(key, broker, now)) ==
            s.(lockHeld := true, live := Some(s.live.value.(lastUsed := now)))
  {
  }

  /** A burst of another account, while the session is not pinned, swaps: the old session is gone in any case, and the
      new one is connected, with the lock held, unless connecting fails. */
  lemma {:induction false} EnterSwaps(installed: bool, s: State, key: Key, broker: Broker, now: real)
    requires Enabled(s, Enter(key, broker, now))
    requires s.live.Some? && s.live.value.connected && s.live.value.key != key && s.live.value.pins == 0
    ensures var t := Apply(installed, s, Enter(key, broker, now));
      if Connects(installed, broker) then
        t.live == Some(Connected(key, now)) && t.terminal == Some(key) && t.lockHeld
      else t.live.None? && !t.lockHeld
  {
  }

  /** There is nothing to reuse: no session, or one that was marked dead. */
  predicate NothingToReuse(s: State) {
    s.live.None? || !s.live.value.connected
  }

  lemma {:induction false} EnterConnects(installed: bool, s: State, key: Key, broker: Broker, now: real)
    requires Enabled(s, Enter(key, broker, now)) && NothingToReuse(s)
    ensures var t := Apply(installed, s, Enter(key, broker, now));
      if Connects(installed, broker) then
        t.live == Some(Connected(key, now)) && t.terminal == Some(key) && t.lockHeld
      else t.live == s.live && !t.lockHeld
  {
  }

  lemma {:induction false} NothingToReuseStays(installed: bool, s: State, es: seq<Event>)
    requires Possible(installed, s, es) && NothingToReuse(s) && forall e <- es :: !e.Enter? && !e.Pin?
    ensures NothingToReuse(Run(installed, s, es))
  {
    if es != [] {
      var n := |es| - 1;
      assert es[n] in es && forall e <- es[..n] :: e in es;
      NothingToReuseStays(installed, s, es[..n]);
    }
  }

  /** After an invalidate the next burst of any account, however many other events come first, connects anew, pins and
      all forgotten, or fails. */
  lemma {:induction false} InvalidateForcesReconnect(installed: bool, s: State, es: seq<Event>, key: Key,
                                                     broker: Broker, now: real)
    requires Enabled(s, Invalidate) && Possible(installed, Apply(installed, s, Invalidate), es)
    requires forall e <- es :: !e.Enter? && !e.Pin?
    requires Enabled(Run(installed, Apply(installed, s, Invalidate), es), Enter(key, broker, now))
    ensures var u := Run(installed, Apply(installed, s, Invalidate), es);
      var t := Apply(installed, u, Enter(key, broker, now));
      if Connects(installed, broker) then
        t.live == Some(Connected(key, now)) && t.terminal == Some(key) && t.lockHeld
      else t.live == u.live && !t.lockHeld
  {
    assert NothingToReuse(Apply(installed, s, Invalidate));
    hide Apply, Enabled, NothingToReuse, Connects;
    NothingToReuseStays(installed, Apply(installed, s, Invalidate), es);
    EnterConnects(installed, Run(installed, Apply(installed, s, Invalidate), es), key, broker, now);
  }

  // ----- pins and shutdown

  /** A pin does what a burst of its account does to the session, counts one pin, and leaves the lock free; an unpin
      takes one pin off, down to none. */
  lemma {:induction false} PinCounts(installed: bool, s: State, key: Key, broker: Broker, now: real)
    requires Enabled(s, Pin(key, broker, now))
    ensures var t, u := Apply(installed, s, Pin(key, broker, now)), Apply(installed, s, Enter(key, broker, now));
      t == if u.lockHeld then u.(lockHeld := false, live := Some(u.live.value.(pins := u.live.value.pins + 1))) else u
    ensures s.live.Some? ==>
      Apply(installed, s, Unpin) ==
        s.(live := Some(s.live.value.(pins := if s.live.value.pins > 0 then s.live.value.pins - 1 else 0)))
  {
  }

  /** A forced shutdown leaves no session and no running reaper, and logs MT5 out of a connected session. */
  lemma {:induction false} ShutdownEndsAll(installed: bool, s: State)
    requires Safe(s) && Enabled(s, ForceShutdown)
    ensures var t := Apply(installed, s, ForceShutdown);
      && t.live.None? && t.reaper.None? && (forall task <- t.tasks :: task != Running)
      && (installed && s.live.Some? && s.live.value.connected ==> t.terminal.None?)
      && |t.tasks| == |s.tasks|
      && (forall i | 0 <= i < |s.tasks| :: t.tasks[i] == if s.tasks[i] == Running then Cancelled else s.tasks[i])
  {
  }
}
