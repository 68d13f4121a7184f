/** The bridge itself: module globals and the live-session object, updated in place under the lock. */
module Mt5Bridge {
  import opened Options
  import opened Mt5Session

  /** The warm login; a fresh object for every connection. */
  class LiveSession {
    const key: Key
    var connected: bool
    var lastUsed: real
    var pinCount: nat

    constructor (key: Key, now: real)
      ensures this.key == key && connected && lastUsed == now && pinCount == 0
    {
      this.key, connected, lastUsed, pinCount := key, true, now, 0;
    }

    function Value(): Live
      reads this
    {
      Live(key, connected, lastUsed, pinCount)
    }
  }

  class Bridge {
    const installed: bool
    var live: LiveSession?
    var reaperTask: Option<nat>
    var tasks: seq<TaskState>
    var lockHeld: bool
    /** The account the terminal is really logged in to; nothing in the bridge reads it. */
    ghost var terminal: Option<Key>

    constructor (installed: bool)
      ensures this.installed == installed && View() == Fresh
    {
      this.installed := installed;
      live, reaperTask, tasks, lockHeld := null, None, [], false;
      terminal := None;
    }

    ghost function View(): State
      reads this, live
    {
      State(if live == null then None else Some(live.Value()), reaperTask, tasks, lockHeld, terminal)
    }

    method EnsureReaperRuns()
      modifies this`reaperTask, this`tasks
      ensures View() == EnsureReaper(old(View()))
    {
      if !(reaperTask.Some? && reaperTask.value < |tasks| && tasks[reaperTask.value] == Running) {
        reaperTask := Some(|tasks|);
        tasks := tasks + [Running];
      }
    }

    /** Reuse the warm session for `key`, or connect; called with the lock held by the caller. */
    method AcquireSession(key: Key, broker: Broker, now: real) returns (r: Outcome)
      modifies this, live
      ensures live == null || live == old(live) || fresh(live)
      ensures (View(), r) == Acquire(installed, old(View()), key, broker, now)
    {
      if live != null && live.connected {
        if live.key == key {
          live.lastUsed := now;
          return Acquired;
        }
        if live.pinCount > 0 {
          return Busy;
        }
        if installed {
          terminal := None;
        }
        live := null;
      }
      if !installed {
        return NotInstalled;
      }
      if broker.Fails? {
        terminal := broker.left;
        return ConnectFailed;
      }
      terminal := Some(key);
      live := new LiveSession(key, now);
      EnsureReaperRuns();
      return Acquired;
    }

    /** Entering a burst keeps the lock; every failure gives it back. */
    method Enter(key: Key, broker: Broker, now: real) returns (r: Outcome)
      requires Enabled(View(), Event.Enter(key, broker, now))
      modifies this, live
      ensures live == null || live == old(live) || fresh(live)
      ensures View() == Apply(installed, old(View()), Event.Enter(key, broker, now))
      ensures r == Acquire(installed, old(View()), key, broker, now).1
      ensures lockHeld <==> r == Acquired
    {
      r := AcquireSession(key, broker, now);
      lockHeld := r == Acquired;
    }

    method Leave(now: real)
      requires Enabled(View(), Event.Leave(now))
      modifies this, live
      ensures live == null || live == old(live) || fresh(live)
      ensures View() == Apply(installed, old(View()), Event.Leave(now)) && !lockHeld
    {
      if live != null {
        live.lastUsed := now;
      }
      lockHeld := false;
    }

    method PinSession(key: Key, broker: Broker, now: real) returns (r: Outcome)
      requires Enabled(View(), Pin(key, broker, now))
      modifies this, live
      ensures live == null || live == old(live) || fresh(live)
      ensures View() == Apply(installed, old(View()), Pin(key, broker, now))
      ensures r == Acquire(installed, old(View()), key, broker, now).1
    {
      r := AcquireSession(key, broker, now);
      if r == Acquired {
        live.pinCount := live.pinCount + 1;
      }
    }

    method UnpinSession()
      requires Enabled(View(), Unpin)
      modifies live
      ensures View() == Apply(installed, old(View()), Unpin)
    {
      if live != null && live.pinCount > 0 {
        live.pinCount := live.pinCount - 1;
      }
    }

    method InvalidateSession()
      requires Enabled(View(), Invalidate)
      modifies live
      ensures View() == Apply(installed, old(View()), Invalidate)
    {
      if live != null {
        live.connected := false;
      }
    }

    method ForceShutdownSession()
      requires Enabled(View(), ForceShutdown)
      modifies this
      ensures View() == Apply(installed, old(View()), ForceShutdown) && live == null
    {
      if reaperTask.Some? {
        if reaperTask.value < |tasks| && tasks[reaperTask.value] == Running {
          tasks := tasks[reaperTask.value := Cancelled];
        }
        reaperTask := None;
      }
      if live != null && live.connected && installed {
        terminal := None;
      }
      live := null;
    }

    /** One turn of the reaper's loop, after its sleep and with the lock. */
    method Reap(task: nat, now: real)
      requires Enabled(View(), ReaperTick(task, now))
      modifies this
      ensures live == null || live == old(live) || fresh(live)
      ensures View() == Apply(installed, old(View()), ReaperTick(task, now))
    {
      if live == null {
        tasks := tasks[task := Finished];
        return;
      }
      if live.pinCount > 0 {
        return;
      }
      if now - live.lastUsed <= IDLE_TIMEOUT {
        return;
      }
      if installed {
        terminal := None;
      }
      live := null;
      tasks := tasks[task := Finished];
    }

    /** One critical section. */
    method Handle(e: Event)
      requires Enabled(View(), e)
      modifies this, live
      ensures live == null || live == old(live) || fresh(live)
      ensures View() == Apply(installed, old(View()), e)
    {
      match e {
        case Enter(key, broker, now) =>
          var _ := Enter(key, broker, now);
        case Leave(now) =>
          Leave(now);
        case Pin(key, broker, now) =>
          var _ := PinSession(key, broker, now);
        case Unpin =>
          UnpinSession();
        case Invalidate =>
          InvalidateSession();
        case ForceShutdown =>
          ForceShutdownSession();
        case ReaperTick(task, now) =>
          Reap(task, now);
      }
    }

    /** Whatever critical sections follow one another, the bridge stays safe: a connected session is the terminal's
        login, and exactly one reaper guards it. */
    method Serve(es: seq<Event>)
      requires Safe(View()) && Possible(installed, View(), es)
      modifies this, live
      ensures Safe(View()) && View() == Run(installed, old(View()), es)
    {
      hide Apply, Enabled, Safe;
      ghost var start := View();
      for i := 0 to |es|
        invariant live == null || live == old(live) || fresh(live)
        invariant Possible(installed, start, es[..i]) && View() == Run(installed, start, es[..i]) && Safe(View())
      {
        PossibleUpTo(installed, start, es, i + 1);
        assert es[..i + 1][..i] == es[..i];
        ApplyIsSafe(installed, View(), es[i]);
        Handle(es[i]);
      }
      assert es[..|es|] == es;
    }
  }

  lemma {:induction false} PossibleUpTo(installed: bool, s: State, es: seq<Event>, n: nat)
    requires Possible(installed, s, es) && n <= |es|
    ensures Possible(installed, s, es[..n])
  {
    if n == |es| {
      assert es[..n] == es;
    } else {
      PossibleUpTo(installed, s, es[..|es| - 1], n);
      assert es[..|es| - 1][..n] == es[..n];
    }
  }
}
