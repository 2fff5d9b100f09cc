/** The gateway listener: boot configuration, a persisted override, and the live state. */
module Gateway {
  import opened Text

  type Address = Option<string>

  /** The stored override, if any: enabled or not, and an address. */
  type Override = Option<(bool, Address)>

  datatype Boot = Boot(enabled: bool, addr: Address)

  datatype Live = Live(task: bool, enabled: bool, addr: Address, listening: bool, error: Option<string>, binds: nat)

  datatype State = State(stored: Override, live: Live)

  function Or(a: Address, b: Address): Address {
    if a.Some? then a else b
  }

  /** The override layered over the boot configuration. */
  function Resolve(boot: Boot, stored: Override): (bool, Address) {
    match stored
    case Some((enabled, addr)) => (enabled, Or(addr, boot.addr))
    case None => (boot.enabled, boot.addr)
  }

  /** The outcome of binding an address. */
  datatype Bind = Bound | Refused(error: string)

  const NO_ADDRESS := "gateway enabled but no bind address configured"

  function Applied(live: Live, enabled: bool, addr: Address, bind: Bind): Live {
    var reset := Live(false, enabled, addr, false, None, live.binds);
    if !enabled then reset
    else if addr.None? then reset.(error := Some(NO_ADDRESS))
    else
      match bind
      case Bound => reset.(task := true, listening := true, binds := live.binds + 1)
      case Refused(e) => reset.(error := Some("bind " + addr.value + ": " + e))
  }

  datatype Action =
    | Activate(bind: Bind)
    | Set(enabled: bool, addr: Address, persists: bool, bind: Bind)
    | Stop

  /** An explicit address wins; otherwise the current one is kept, or the boot one taken. */
  function NewAddress(boot: Boot, live: Live, addr: Address): Address {
    Or(Or(addr, live.addr), boot.addr)
  }

  function Next(boot: Boot, s: State, a: Action): State {
    match a
    case Activate(bind) => s.(live := Applied(s.live, Resolve(boot, s.stored).0, Resolve(boot, s.stored).1, bind))
    case Set(enabled, addr, persists, bind) =>
      if !persists then s
      else
        var now := NewAddress(boot, s.live, addr);
        State(Some((enabled, now)), Applied(s.live, enabled, now, bind))
    case Stop => s.(live := s.live.(task := false, listening := false))
  }

  class Resource {
    const boot: Boot
    var stored: Override
    var live: Live

    function Snapshot(): State
      reads this
    {
      State(stored, live)
    }

    constructor (boot: Boot, stored: Override)
      ensures this.boot == boot && Snapshot() == Fresh(stored)
    {
      this.boot, this.stored, live := boot, stored, Fresh(stored).live;
    }

    method Apply(enabled: bool, addr: Address, bind: Bind)
      modifies this`live
      ensures live == Applied(old(live), enabled, addr, bind)
    {
      live := live.(task := false);
      live := live.(enabled := enabled, addr := addr, listening := false, error := None);
      if !enabled {
        return;
      }
      if addr.None? {
        live := live.(error := Some(NO_ADDRESS));
        return;
      }
      match bind {
        case Bound => live := live.(task := true, listening := true, binds := live.binds + 1);
        case Refused(e) => live := live.(error := Some("bind " + addr.value + ": " + e));
      }
    }

    /** Bring the listener up; a failed bind is reported, and kept in the state. */
    method Activate(bind: Bind) returns (ok: bool)
      modifies this`live
      ensures Snapshot() == Next(boot, old(Snapshot()), Action.Activate(bind))
      ensures ok <==> !live.enabled || live.listening
    {
      var (enabled, addr) := Resolve(boot, stored);
      Apply(enabled, addr, bind);
      ok := !live.enabled || live.listening;
    }

    /** Persist first, then apply; nothing changes when persisting fails. */
    method Set(enabled: bool, addr: Address, persists: bool, bind: Bind) returns (ok: bool)
      modifies this
      ensures Snapshot() == Next(boot, old(Snapshot()), Action.Set(enabled, addr, persists, bind)) && ok == persists
    {
      var now := NewAddress(boot, live, addr);
      if !persists {
        return false;
      }
      stored := Some((enabled, now));
      Apply(enabled, now, bind);
      ok := true;
    }

    method Stop()
      modifies this`live
      ensures Snapshot() == Next(boot, old(Snapshot()), Action.Stop)
    {
      live := live.(task := false, listening := false);
    }
  }

  /** A process that has not activated yet. */
  function Fresh(stored: Override): State {
    State(stored, Live(false, false, None, false, None, 0))
  }

  function Run(boot: Boot, stored: Override, first: Bind, actions: seq<Action>): State {
    if actions == [] then Next(boot, Fresh(stored), Activate(first))
    else Next(boot, Run(boot, stored, first, actions[..|actions| - 1]), actions[|actions| - 1])
  }

  /** After activation, over every sequence of calls: a restart with the same boot configuration resolves
      the live pair, and a listener implies an enabled gateway, an address and a task. */
  lemma {:induction false} RestartResolvesLive(boot: Boot, stored: Override, first: Bind, actions: seq<Action>)
    ensures var s := Run(boot, stored, first, actions);
      && Resolve(boot, s.stored) == (s.live.enabled, s.live.addr)
      && (s.live.listening ==> s.live.enabled && s.live.addr.Some? && s.live.task && s.live.error.None?)
      && (s.live.task ==> s.live.listening)
  {
    if actions != [] {
      RestartResolvesLive(boot, stored, first, actions[..|actions| - 1]);
    }
  }

  /** ... and a bare enable or disable keeps the address, live and stored. */
  lemma BareSetKeepsAddress(boot: Boot, stored: Override, first: Bind, actions: seq<Action>, enabled: bool, bind: Bind)
    ensures var s := Run(boot, stored, first, actions);
      var s' := Next(boot, s, Set(enabled, None, true, bind));
      s'.live.addr == s.live.addr && Resolve(boot, s'.stored) == (enabled, s.live.addr)
  {
    RestartResolvesLive(boot, stored, first, actions);
  }

  /** A change that is stored takes its own address, or the one in force; the gateway then listens if and
      only if it is enabled, has an address and the bind succeeds, and otherwise it has no task. */
  lemma SetListensExactly(boot: Boot, stored: Override, first: Bind, actions: seq<Action>, enabled: bool, addr: Address,
      bind: Bind)
    ensures var s := Run(boot, stored, first, actions);
      var live := Next(boot, s, Set(enabled, addr, true, bind)).live;
      && live.enabled == enabled && live.addr == (if addr.Some? then addr else s.live.addr)
      && (live.listening <==> enabled && live.addr.Some? && bind == Bound)
      && (live.task <==> live.listening) && (live.error.Some? <==> enabled && !live.listening)
      && live.binds == s.live.binds + (if live.listening then 1 else 0)
      && (enabled && live.addr.None? ==> live.error == Some("gateway enabled but no bind address configured"))
      && (enabled && live.addr.Some? && bind.Refused? ==>
           live.error == Some("bind " + live.addr.value + ": " + bind.error))
  {
    RestartResolvesLive(boot, stored, first, actions);
  }

  /** A restart after any such run listens on the same terms, at the address in force before it. */
  lemma RestartListensExactly(boot: Boot, stored: Override, first: Bind, actions: seq<Action>, bind: Bind)
    ensures var s := Run(boot, stored, first, actions);
      var live := Run(boot, s.stored, bind, []).live;
      && live.enabled == s.live.enabled && live.addr == s.live.addr
      && (live.listening <==> live.enabled && live.addr.Some? && bind == Bound)
  {
    RestartResolvesLive(boot, stored, first, actions);
  }

  /** A change that cannot be stored changes nothing; stopping ends the listener and keeps the setting. */
  lemma UnstoredAndStopped(boot: Boot, stored: Override, first: Bind, actions: seq<Action>, enabled: bool,
      addr: Address, bind: Bind)
    ensures var s := Run(boot, stored, first, actions);
      && Run(boot, stored, first, actions + [Set(enabled, addr, false, bind)]) == s
      && var stopped := Run(boot, stored, first, actions + [Stop]);
         && !stopped.live.task && !stopped.live.listening && stopped.stored == s.stored
         && stopped.live.enabled == s.live.enabled && stopped.live.addr == s.live.addr
         && stopped.live.error == s.live.error
  {
    assert (actions + [Set(enabled, addr, false, bind)])[..|actions|] == actions;
    assert (actions + [Stop])[..|actions|] == actions;
  }

  /** Before activation the current address is not known yet: a bare set then falls back to the boot
      address, and keeps the stored one exactly when the two are the same. */
  lemma BareSetBeforeActivation(boot: Boot, stored: Override, enabled: bool, bind: Bind)
    ensures var s' := Next(boot, Fresh(stored), Set(enabled, None, true, bind));
      s'.live.addr == boot.addr && (s'.live.addr == Resolve(boot, stored).1
        <==> stored.None? || stored.value.1.None? || stored.value.1 == boot.addr)
  {}
}
