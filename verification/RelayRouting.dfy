/** Where the relay of pkg/lobby/relay.go sends things, told from outside: what a packet must be, the reply to
    a ping, and for every run the path of every player. */
module RelayRouting {
  import opened Bytes
  import opened RelayStates
  import opened RelaySafety

  // ---- What a packet is ---------------------------------------------------------------------

  /** The two kinds of packets, by their bytes. */
  lemma PacketsAre(p: seq<byte>)
    ensures IsPing(p) <==> |p| == 28 && p[..4] == [0x52, 0x45, 0x4c, 0x59]
    ensures IsRelayed(p) <==>
            |p| >= 12 && p[0] == 0xFE && p[1] == 0x84 && p[7] == 99 && p[8] == 0xCB && p[9] == 0x66
  {
    if |p| == 28 {
      var (a, b, c, d) := (p[0], p[1], p[2], p[3]);
      assert p[..4] == [a, b, c, d];
      assert LE32(p, 0) == a as int + 256 * b as int + 0x1_0000 * (c as int + 256 * d as int);
    }
  }

  /** A ping for slot k of session id with the token of that session. */
  predicate Accepted(st: State, p: seq<byte>, id: nat, k: nat) {
    && IsPing(p) && p[4] == 1 && p[5] as nat == k < 4 && LittleNumber(p[8..12]) == id
    && id in st.sessions && LittleNumber(p[12..20]) == st.sessions[id].token
  }

  lemma AcceptedIsAuthentic(st: State, p: seq<byte>)
    requires IsPing(p)
    ensures Authentic(st, p) <==> Accepted(st, p, LittleNumber(p[8..12]), p[5] as nat)
    ensures LE32(p, 8) == LittleNumber(p[8..12])
  {
    LESaysNumber(p, 8);
    LESaysNumber(p, 12);
  }

  /** An accepted ping comes back to its sender as a pong, binds it, and is a use of its session. */
  lemma PingIsAnswered(st: State, p: seq<byte>, from: AddrPort, now: int, id: nat, k: nat)
    requires Inv(st) && from.Addr? && Accepted(st, p, id, k)
    ensures var h := Handle(st, p, from, now);
            && h.dst == from && h.p == p[..4] + [2] + p[5..]
            && from in h.st.bindings && h.st.bindings[from] == Binding(id, k) && UsedAt(st, id, now, h.st)
  {
    AcceptedIsAuthentic(st, p);
    RebindKeeps(st, id, k, from);
    RebindTimes(st, id, k, from);
    TouchTimes(Rebind(st, id, k, from), id, k, from, now);
  }

  /** No other ping is answered or has an effect. */
  lemma OtherPingsAreIgnored(st: State, p: seq<byte>, from: AddrPort, now: int)
    requires Inv(st) && from.Addr? && IsPing(p) && !Accepted(st, p, LittleNumber(p[8..12]), p[5] as nat)
    ensures Handle(st, p, from, now) == Handled(st, NoAddr, p)
  {
    AcceptedIsAuthentic(st, p);
  }

  /** The session was used last at that time; nothing else about times and tokens changed. */
  predicate UsedAt(st: State, id: nat, now: int, st1: State) {
    && st1.sessions.Keys == st.sessions.Keys
    && (forall i :: i in st.sessions ==>
          && (st1.sessions[i].token, st1.sessions[i].created) == (st.sessions[i].token, st.sessions[i].created)
          && st1.sessions[i].lastActive == if i == id then now else st.sessions[i].lastActive)
  }

  lemma TouchTimes(st: State, id: uint32, k: nat, from: AddrPort, now: int)
    requires st.Has(id, k)
    ensures UsedAt(st, id, now, Touch(st, id, k, from, now))
    ensures Touch(st, id, k, from, now).bindings == st.bindings
  {
  }

  /** Times and tokens of the sessions stay. */
  predicate SameTimes(st: State, st1: State) {
    st1.sessions.Keys == st.sessions.Keys
    && forall i :: i in st.sessions ==>
        (st1.sessions[i].token, st1.sessions[i].created, st1.sessions[i].lastActive) ==
        (st.sessions[i].token, st.sessions[i].created, st.sessions[i].lastActive)
  }

  lemma RebindTimes(st: State, id: uint32, k: nat, from: AddrPort)
    requires Inv(st) && st.Has(id, k) && from.Addr?
    ensures SameTimes(st, Rebind(st, id, k, from))
  {
    var prev := st.SlotOf(id, k).At(Is4(from));
    if prev != from {
      DetachKeeps(st, prev);
      DetachTimes(st, prev);
      DetachKeeps(Detach(st, prev), from);
      DetachTimes(Detach(st, prev), from);
      AttachTimes(Detach(Detach(st, prev), from), id, k, from);
    }
  }

  lemma DetachTimes(st: State, a: AddrPort)
    requires a in st.bindings ==> st.Has(st.bindings[a].session, st.bindings[a].peer)
    ensures SameTimes(st, Detach(st, a))
  {
  }

  lemma AttachTimes(st: State, id: uint32, k: nat, a: AddrPort)
    requires st.Has(id, k)
    ensures SameTimes(st, Attach(st, id, k, a))
  {
  }

  /** A session is kept for two minutes after its last use, but not for more than three hours. */
  lemma KeptWhileUsed(st: State, now: int, id: uint32)
    requires id in st.sessions
    ensures id in Expire(st, now).sessions <==>
            now - st.sessions[id].lastActive <= 120_000_000_000 && now - st.sessions[id].created <= 10_800_000_000_000
  {
  }

  /** A session that is new, or has a new token, starts then, with no address bound to it. */
  lemma SessionStarts(st: State, id: uint32, token: uint64, now: int, a: AddrPort)
    requires Inv(st)
    ensures id in Register(st, id, token, now).sessions && id in SetToken(st, id, token, now).sessions
    ensures id !in st.sessions ==> StartedAt(Register(st, id, token, now), id, token, now, a)
    ensures id !in st.sessions || st.sessions[id].token != token ==>
              StartedAt(SetToken(st, id, token, now), id, token, now, a)
    ensures id in st.sessions ==> Register(st, id, token, now) == st
    ensures id in st.sessions && st.sessions[id].token == token ==> SetToken(st, id, token, now) == st
  {
    if a in st.bindings {
      assert Bound(st, st.bindings[a].session, st.bindings[a].peer, a);
    }
  }

  predicate StartedAt(st: State, id: uint32, token: uint64, now: int, a: AddrPort) {
    && id in st.sessions && (a in st.bindings ==> st.bindings[a].session != id)
    && var s := st.sessions[id];
       s.token == token && s.created == now && s.lastActive == now && s.forwarded == 0
  }

  // ---- The path of a player -----------------------------------------------------------------

  /** Where packets for a player go, and whether the player sends game packets from there. */
  datatype Path = Path(addr: AddrPort, played: bool)

  const NO_PATH := Path(NoAddr, false)

  function PathOf(st: State, id: uint32, k: nat): Path {
    if st.Has(id, k) then Path(st.SlotOf(id, k).active, st.SlotOf(id, k).playing) else NO_PATH
  }

  /** What a step makes of a player's path. A ping of the player moves it until game packets do, and after
      that if it gives up the address of the path for another of the same family; a ping from the address of
      the path for another slot ends it; a game packet of the player moves it; so does the session's end. */
  function PathAfter(st: State, step: Step, id: uint32, k: nat, path: Path): Path {
    match step
    case Packet(p, from, _) =>
      if IsPing(p) then
        if Accepted(st, p, id, k) then
          if !path.played || (Is4(from) == Is4(path.addr) && from != path.addr) then Path(from, false) else path
        else if Accepted(st, p, LittleNumber(p[8..12]), p[5] as nat) && from == path.addr then NO_PATH
        else path
      else if IsRelayed(p) && Relays(st, p, from) && st.bindings[from] == Binding(id, k) then Path(from, true)
      else path
    case SessionToken(_, _, _) => path
    case SetSessionToken(i, token, _) =>
      if i == id && id in st.sessions && st.sessions[id].token != token then NO_PATH else path
    case RemoveStaleSessions(now) => if id in st.sessions && Stale(st.sessions[id], now) then NO_PATH else path
  }

  lemma PathMoves(st: State, step: Step, id: uint32, k: nat)
    requires Inv(st) && StepOk(step)
    ensures PathOf(Do(st, step), id, k) == PathAfter(st, step, id, k, PathOf(st, id, k))
  {
    match step
    case Packet(p, from, now) =>
      if IsPing(p) {
        AcceptedIsAuthentic(st, p);
        if Authentic(st, p) {
          PingMoves(st, LE32(p, 8), p[5] as nat, from, now, id, k);
        }
      } else if IsRelayed(p) && Relays(st, p, from) {
        assert Bound(st, st.bindings[from].session, st.bindings[from].peer, from);
      }
    case SessionToken(_, _, _) =>
    case SetSessionToken(_, _, _) =>
    case RemoveStaleSessions(_) =>
  }

  lemma PingMoves(st: State, i: uint32, j: nat, from: AddrPort, now: int, id: uint32, k: nat)
    requires Inv(st) && from.Addr? && st.Has(i, j)
    ensures Rebind(st, i, j, from).Has(i, j)
    ensures var path := PathOf(st, id, k);
            PathOf(Touch(Rebind(st, i, j, from), i, j, from, now), id, k) ==
            if (i, j) == (id, k) then
              if !path.played || (Is4(from) == Is4(path.addr) && from != path.addr) then Path(from, false) else path
            else if from == path.addr then NO_PATH
            else path
  {
    RebindKeeps(st, i, j, from);
    RebindMoves(st, i, j, from, id, k);
    TouchMoves(Rebind(st, i, j, from), i, j, from, now, id, k);
  }

  lemma TouchMoves(st: State, i: uint32, j: nat, from: AddrPort, now: int, id: uint32, k: nat)
    requires st.Has(i, j)
    ensures PathOf(Touch(st, i, j, from, now), id, k) ==
            if (i, j) == (id, k) && !PathOf(st, id, k).played then Path(from, false) else PathOf(st, id, k)
  {
  }

  /** The path without address a. */
  function Without(path: Path, a: AddrPort): Path {
    if a.Addr? && path.addr == a then NO_PATH else path
  }

  lemma RebindMoves(st: State, i: uint32, j: nat, from: AddrPort, id: uint32, k: nat)
    requires Inv(st) && from.Addr? && st.Has(i, j)
    ensures var path := PathOf(st, id, k);
            PathOf(Rebind(st, i, j, from), id, k) ==
            if (i, j) != (id, k) then Without(path, from)
            else if Is4(from) == Is4(path.addr) && path.addr != from then Without(path, path.addr)
            else path
  {
    var prev := st.SlotOf(i, j).At(Is4(from));
    assert st.SlotOf(i, j).Valid();
    ActiveIsBound(st, id, k);
    if prev.Addr? {
      assert Bound(st, i, j, prev);
    }
    if prev == from {
      assert Bound(st, i, j, from);
    } else {
      DetachKeeps(st, prev);
      var st1 := Detach(st, prev);
      DetachMoves(st, prev, id, k);
      DetachKeeps(st1, from);
      DetachMoves(st1, from, id, k);
      AttachMoves(Detach(st1, from), i, j, from, id, k);
    }
  }

  lemma ActiveIsBound(st: State, id: uint32, k: nat)
    requires Inv(st)
    ensures var path := PathOf(st, id, k);
            && (path.addr.Addr? ==> Bound(st, id, k, path.addr))
            && (path.addr.Addr? ==> path.addr in st.bindings && st.bindings[path.addr] == Binding(id, k))
            && (path.played ==> path.addr.Addr?)
  {
    if st.Has(id, k) {
      assert st.SlotOf(id, k).Valid();
      if st.SlotOf(id, k).active.Addr? {
        assert Bound(st, id, k, st.SlotOf(id, k).active);
      }
    }
  }

  lemma DetachMoves(st: State, a: AddrPort, id: uint32, k: nat)
    requires Inv(st)
    ensures PathOf(Detach(st, a), id, k) == Without(PathOf(st, id, k), a)
  {
    ActiveIsBound(st, id, k);
    if a in st.bindings {
      assert Bound(st, st.bindings[a].session, st.bindings[a].peer, a);
    }
  }

  lemma AttachMoves(st: State, i: uint32, j: nat, a: AddrPort, id: uint32, k: nat)
    requires st.Has(i, j)
    ensures PathOf(Attach(st, i, j, a), id, k) == PathOf(st, id, k)
  {
  }

  /** The path of a player after a run, by what happened alone. */
  function Route(steps: seq<Step>, id: uint32, k: nat): Path
    requires StepsOk(steps)
    decreases |steps|
  {
    if steps == [] then NO_PATH
    else
      var (before, last) := (steps[..|steps| - 1], steps[|steps| - 1]);
      PathAfter(Run(before), last, id, k, Route(before, id, k))
  }

  /** In every run a player's path is where these rules put it. */
  lemma {:induction false} RouteIsPath(steps: seq<Step>, id: uint32, k: nat)
    requires StepsOk(steps)
    ensures PathOf(Run(steps), id, k) == Route(steps, id, k)
    decreases |steps|
  {
    if steps != [] {
      var (before, last) := (steps[..|steps| - 1], steps[|steps| - 1]);
      RouteIsPath(before, id, k);
      PathMoves(Run(before), last, id, k);
    }
  }

  // ---- Where game packets go ----------------------------------------------------------------

  /** p is for slot to of the sender's session, with a type to restore. */
  predicate Addressed(p: seq<byte>, to: nat) {
    !IsPing(p) && IsRelayed(p) && p[10] as nat == to < 4 && 1 <= p[11] <= 8
  }

  /** A game packet of a bound player for another slot of its session: it goes to that player's path, and is
      dropped if there is none; on the way its type is restored and the relay's bytes become 0; the sender's
      path is where it came from. */
  lemma GoesToThePath(st: State, p: seq<byte>, from: AddrPort, now: int, id: uint32, k: nat, to: nat)
    requires Inv(st) && from in st.bindings && st.bindings[from] == Binding(id, k)
    requires Addressed(p, to) && to != k && from.Addr?
    ensures var (h, path) := (Handle(st, p, from, now), PathOf(st, id, to));
            && h.dst == path.addr && PathOf(h.st, id, k) == Path(from, true)
            && h.p == (if path.addr.Addr? then p[..7] + [p[11], 0, 0, 0, 0] + p[12..] else p)
            && (if path.addr.Addr? then UsedAt(st, id, now, h.st) else SameTimes(st, h.st))
  {
    assert Bound(st, id, k, from);
  }

  /** Only such packets are sent on, and otherwise only pings are answered. */
  lemma NothingElseIsSent(st: State, p: seq<byte>, from: AddrPort, now: int)
    requires Inv(st) && from.Addr? && Handle(st, p, from, now).dst != NoAddr
    ensures (IsPing(p) && Accepted(st, p, LittleNumber(p[8..12]), p[5] as nat))
            || (from in st.bindings && |p| >= 12 && Addressed(p, p[10] as nat)
                && p[10] as nat != st.bindings[from].peer)
  {
    if IsPing(p) {
      AcceptedIsAuthentic(st, p);
    }
  }

  /** Over whole runs: a packet for a player goes to the path its events gave it. */
  lemma RoutedByEvents(steps: seq<Step>, p: seq<byte>, from: AddrPort, now: int, id: uint32, k: nat, to: nat)
    requires StepsOk(steps) && from.Addr? && Addressed(p, to) && to != k
    requires from in Run(steps).bindings && Run(steps).bindings[from] == Binding(id, k)
    ensures Handle(Run(steps), p, from, now).dst == Route(steps, id, to).addr
  {
    RouteIsPath(steps, id, to);
    GoesToThePath(Run(steps), p, from, now, id, k, to);
  }

  /** A path that is played is where packets go as long as nothing disturbs it. */
  lemma RoutedWhilePlaying(st: State, steps: seq<Step>, p: seq<byte>, from: AddrPort, now: int, id: uint32, k: nat,
                           to: nat, a: AddrPort)
    requires Inv(st) && StepsOk(steps) && PlaysFrom(st, id, to, a) && Undisturbed(st, steps, id, to, a)
    requires from.Addr? && Addressed(p, to) && to != k
    requires from in RunFrom(st, steps).bindings && RunFrom(st, steps).bindings[from] == Binding(id, k)
    ensures Handle(RunFrom(st, steps), p, from, now).dst == a
  {
    PathKeptOverRun(st, steps, id, to, a);
    GoesToThePath(RunFrom(st, steps), p, from, now, id, k, to);
  }

  /** A step that moves or ends the path a of a player who sent no game packet yet: another ping, game packets,
      a ping from a for another slot, the session's end. */
  predicate Moves(st: State, step: Step, id: uint32, k: nat, a: AddrPort) {
    match step
    case Packet(p, from, _) =>
      || (Accepted(st, p, id, k) && from != a)
      || (from == a && IsPing(p) && !Accepted(st, p, id, k) && Accepted(st, p, LittleNumber(p[8..12]), p[5] as nat))
      || (!IsPing(p) && IsRelayed(p) && Relays(st, p, from) && st.bindings[from] == Binding(id, k))
    case SessionToken(_, _, _) => false
    case SetSessionToken(i, token, _) => i == id && id in st.sessions && token != st.sessions[id].token
    case RemoveStaleSessions(now) => id in st.sessions && Stale(st.sessions[id], now)
  }

  /** Before a player plays, the path is the address of the last ping, from which nothing moved it since: */
  ghost predicate PingedFrom(steps: seq<Step>, id: uint32, k: nat, a: AddrPort)
    requires StepsOk(steps)
    decreases |steps|
  {
    steps != [] &&
    var (before, last) := (steps[..|steps| - 1], steps[|steps| - 1]);
    || (last.Packet? && last.from == a && Accepted(Run(before), last.p, id, k) && !PathOf(Run(steps), id, k).played)
    || (PingedFrom(before, id, k, a) && !Moves(Run(before), last, id, k, a))
  }

  /** exactly that address, and there is none if there is no such ping. */
  lemma {:induction false} LastPingIsPath(steps: seq<Step>, id: uint32, k: nat, a: AddrPort)
    requires StepsOk(steps) && a.Addr?
    ensures PathOf(Run(steps), id, k) == Path(a, false) <==> PingedFrom(steps, id, k, a)
    decreases |steps|
  {
    if steps != [] {
      var (before, last) := (steps[..|steps| - 1], steps[|steps| - 1]);
      LastPingIsPath(before, id, k, a);
      PathMoves(Run(before), last, id, k);
      ActiveIsBound(Run(before), id, k);
    }
  }

  /** A player has no path exactly without game packets and without such a ping. */
  lemma NoPathExactly(steps: seq<Step>, id: uint32, k: nat)
    requires StepsOk(steps)
    ensures PathOf(Run(steps), id, k).addr == NoAddr <==>
            !PathOf(Run(steps), id, k).played && forall a: AddrPort :: a.Addr? ==> !PingedFrom(steps, id, k, a)
  {
    var path := PathOf(Run(steps), id, k);
    ActiveIsBound(Run(steps), id, k);
    if path.addr.Addr? {
      LastPingIsPath(steps, id, k, path.addr);
    } else {
      forall a: AddrPort | a.Addr? ensures !PingedFrom(steps, id, k, a) {
        LastPingIsPath(steps, id, k, a);
      }
    }
  }
}
