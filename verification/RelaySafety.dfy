/** What the relay of pkg/lobby/relay.go guarantees over whole runs: who gets forwarded packets, what
    moves a player's path, who can be bound, and that relaying restores the packet. */
module RelaySafety {
  import opened Bytes
  import opened RelayStates

  predicate StepsOk(steps: seq<Step>) {
    forall step :: step in steps ==> StepOk(step)
  }

  /** The maps stay inverse: in every reachable state address a leads to slot k of session id exactly if
      that session is registered and a is the slot's address of its family. */
  lemma BindingsAreInverse(steps: seq<Step>, id: uint32, k: nat, a: AddrPort)
    requires StepsOk(steps)
    ensures var st := Run(steps);
            a in st.bindings && st.bindings[a] == Binding(id, k) <==>
            id in st.sessions && k < MAX_PEERS && a.Addr? && st.sessions[id].peers[k].At(a.is4) == a
  {
    var st := Run(steps);
    if a in st.bindings {
      assert Bound(st, st.bindings[a].session, st.bindings[a].peer, a);
    }
    if id in st.sessions && k < MAX_PEERS && a.Addr? && st.sessions[id].peers[k].At(a.is4) == a {
      assert Bound(st, id, k, a);
    }
  }

  /** The active path of a player is unset or one of the player's bound addresses; playing needs one. */
  lemma ActivePathIsBound(steps: seq<Step>, id: uint32, k: nat)
    requires StepsOk(steps) && Run(steps).Has(id, k)
    ensures var (st, slot) := (Run(steps), Run(steps).SlotOf(id, k));
            && (slot.active == NoAddr || (slot.active in st.bindings && st.bindings[slot.active] == Binding(id, k)))
            && (slot.playing ==> slot.active != NoAddr)
  {
    var st := Run(steps);
    var slot := st.SlotOf(id, k);
    assert slot.Valid();
    if slot.active.Addr? {
      assert Bound(st, id, k, slot.active);
    }
  }

  /** Every forwarded game packet goes to an address bound to the named, different player of the sender's
      own session, and the sender's path becomes the address it came from. */
  lemma ForwardedWithinSession(st: State, p: seq<byte>, from: AddrPort, now: int)
    requires Inv(st) && from.Addr? && !IsPing(p)
    requires Handle(st, p, from, now).dst != NoAddr
    ensures var (h, to) := (Handle(st, p, from, now), p[10] as nat);
            && from in st.bindings && h.dst in st.bindings
            && st.bindings[h.dst] == Binding(st.bindings[from].session, to) && to != st.bindings[from].peer
            && h.st.SlotOf(st.bindings[from].session, st.bindings[from].peer).active == from
  {
    var (id, k, to) := (st.bindings[from].session, st.bindings[from].peer, p[10] as nat);
    assert Bound(st, id, k, from);
    var slot := st.SlotOf(id, to);
    assert slot.Valid();
    assert Bound(st, id, to, slot.active);
  }

  /** Addresses that are not bound can neither relay nor change anything. */
  lemma StrangersAreIgnored(st: State, p: seq<byte>, from: AddrPort, now: int)
    requires Inv(st) && from.Addr? && from !in st.bindings && !Authentic(st, p)
    ensures Handle(st, p, from, now) == Handled(st, NoAddr, p)
  {
  }

  // ---- The path of a playing player ---------------------------------------------------------

  /** Player k of session id sends game packets from a, and is sent them there. */
  predicate PlaysFrom(st: State, id: uint32, k: nat, a: AddrPort) {
    st.Has(id, k) && st.SlotOf(id, k).playing && st.SlotOf(id, k).active == a
  }

  /** The only ways to lose the path a: a ping that rebinds the player's address of that family, one that
      takes a for another slot, a game packet of the player from its other address, or the session's end. */
  predicate Disturbs(st: State, step: Step, id: uint32, k: nat, a: AddrPort)
    requires id in st.sessions
  {
    match step
    case Packet(p, from, _) =>
      || (Authentic(st, p)
          && ((LE32(p, 8) == id && p[5] as nat == k && Is4(from) == Is4(a) && from != a)
              || (from == a && (LE32(p, 8), p[5] as nat) != (id, k))))
      || (!IsPing(p) && IsRelayed(p) && Relays(st, p, from) && st.bindings[from] == Binding(id, k) && from != a)
    case SessionToken(_, _, _) => false
    case SetSessionToken(i, token, _) => i == id && token != st.sessions[id].token
    case RemoveStaleSessions(now) => Stale(st.sessions[id], now)
  }

  /** Exactly those steps end it. */
  lemma PathKeptUnlessDisturbed(st: State, step: Step, id: uint32, k: nat, a: AddrPort)
    requires Inv(st) && StepOk(step) && PlaysFrom(st, id, k, a)
    ensures PlaysFrom(Do(st, step), id, k, a) <==> !Disturbs(st, step, id, k, a)
  {
    assert st.SlotOf(id, k).Valid() && Bound(st, id, k, a);
    match step
    case Packet(p, from, now) =>
      if IsPing(p) {
        if Authentic(st, p) {
          PathUnderPing(st, p, from, now, id, k, a);
        }
      } else if IsRelayed(p) && Relays(st, p, from) {
        assert Bound(st, st.bindings[from].session, st.bindings[from].peer, from);
      }
    case SessionToken(_, _, _) =>
    case SetSessionToken(_, _, _) =>
    case RemoveStaleSessions(_) =>
  }

  lemma PathUnderPing(st: State, p: seq<byte>, from: AddrPort, now: int, id: uint32, k: nat, a: AddrPort)
    requires Inv(st) && from.Addr? && PlaysFrom(st, id, k, a) && Bound(st, id, k, a) && Authentic(st, p)
    ensures PlaysFrom(HandlePing(st, p, from, now).st, id, k, a) <==> !Disturbs(st, Packet(p, from, now), id, k, a)
  {
    var (i, j) := (LE32(p, 8), p[5] as nat);
    RebindKeeps(st, i, j, from);
    SlotUnderRebind(st, i, j, from, id, k, a);
    PathUnderTouch(Rebind(st, i, j, from), i, j, from, now, id, k, a);
  }

  lemma PathUnderTouch(st: State, i: uint32, j: nat, from: AddrPort, now: int, id: uint32, k: nat, a: AddrPort)
    requires st.Has(i, j) && st.Has(id, k)
    requires !PlaysFrom(st, id, k, a) ==> !st.SlotOf(id, k).playing
    ensures PlaysFrom(Touch(st, i, j, from, now), id, k, a) <==> PlaysFrom(st, id, k, a)
  {
    assert Touch(st, i, j, from, now).Has(id, k);
    if (i, j) != (id, k) {
      assert Touch(st, i, j, from, now).SlotOf(id, k) == st.SlotOf(id, k);
    }
  }

  lemma SlotUnderRebind(st: State, i: uint32, j: nat, from: AddrPort, id: uint32, k: nat, a: AddrPort)
    requires Inv(st) && from.Addr? && st.Has(i, j) && PlaysFrom(st, id, k, a) && Bound(st, id, k, a)
    ensures Rebind(st, i, j, from).Has(id, k)
    ensures PlaysFrom(Rebind(st, i, j, from), id, k, a) <==>
            !(((i, j) == (id, k) && from.is4 == a.is4 && from != a) || (from == a && (i, j) != (id, k)))
    ensures !PlaysFrom(Rebind(st, i, j, from), id, k, a) ==> !Rebind(st, i, j, from).SlotOf(id, k).playing
  {
    var prev := st.SlotOf(i, j).At(from.is4);
    assert st.SlotOf(i, j).Valid() && st.SlotOf(id, k).Valid();
    if prev.Addr? {
      assert Bound(st, i, j, prev);
    }
    if prev != from {
      DetachKeeps(st, prev);
      var st1 := Detach(st, prev);
      DetachKeeps(st1, from);
      SlotUnderDetach(st, prev, id, k, a);
      if prev == a {
        assert (i, j) == (id, k) && from.is4 == a.is4;
        NotPlayingUnderDetach(st1, from, id, k);
      } else {
        SlotUnderDetach(st1, from, id, k, a);
      }
      SlotUnderAttach(Detach(st1, from), i, j, from, id, k);
    }
  }

  lemma NotPlayingUnderDetach(st: State, x: AddrPort, id: uint32, k: nat)
    requires Inv(st) && st.Has(id, k) && !st.SlotOf(id, k).playing
    ensures Detach(st, x).Has(id, k) && !Detach(st, x).SlotOf(id, k).playing
  {
    if x in st.bindings {
      assert Bound(st, st.bindings[x].session, st.bindings[x].peer, x);
    }
  }

  lemma SlotUnderAttach(st: State, i: uint32, j: nat, x: AddrPort, id: uint32, k: nat)
    requires st.Has(i, j) && st.Has(id, k)
    ensures Attach(st, i, j, x).Has(id, k)
    ensures var (slot, slot1) := (st.SlotOf(id, k), Attach(st, i, j, x).SlotOf(id, k));
            (slot1.active, slot1.playing) == (slot.active, slot.playing)
  {
  }

  lemma SlotUnderDetach(st: State, x: AddrPort, id: uint32, k: nat, a: AddrPort)
    requires Inv(st) && PlaysFrom(st, id, k, a) && Bound(st, id, k, a)
    ensures Detach(st, x).Has(id, k)
    ensures if x == a then !Detach(st, x).SlotOf(id, k).playing
            else PlaysFrom(Detach(st, x), id, k, a) && Bound(Detach(st, x), id, k, a)
  {
    if x in st.bindings {
      assert Bound(st, st.bindings[x].session, st.bindings[x].peer, x);
    }
  }

  /** None of the steps, taken from st, disturbs the path. */
  predicate Undisturbed(st: State, steps: seq<Step>, id: uint32, k: nat, a: AddrPort)
    requires Inv(st) && StepsOk(steps)
    decreases |steps|
  {
    if steps == [] then true
    else
      DoKeeps(st, steps[0]);
      id in st.sessions && !Disturbs(st, steps[0], id, k, a) && Undisturbed(Do(st, steps[0]), steps[1..], id, k, a)
  }

  function RunFrom(st: State, steps: seq<Step>): (st1: State)
    requires Inv(st) && StepsOk(steps)
    ensures Inv(st1)
    decreases |steps|
  {
    if steps == [] then st
    else
      DoKeeps(st, steps[0]);
      RunFrom(Do(st, steps[0]), steps[1..])
  }

  /** Over runs: a path stays as long as none of the steps disturbs it. */
  lemma {:induction false} PathKeptOverRun(st: State, steps: seq<Step>, id: uint32, k: nat, a: AddrPort)
    requires Inv(st) && StepsOk(steps)
    requires PlaysFrom(st, id, k, a) && Undisturbed(st, steps, id, k, a)
    ensures PlaysFrom(RunFrom(st, steps), id, k, a)
    decreases |steps|
  {
    if steps != [] {
      DoKeeps(st, steps[0]);
      PathKeptUnlessDisturbed(st, steps[0], id, k, a);
      PathKeptOverRun(Do(st, steps[0]), steps[1..], id, k, a);
    }
  }

  // ---- Who can be bound ---------------------------------------------------------------------

  /** A ping from address a for slot k of session id with the session's token. */
  predicate PingedBy(step: Step, a: AddrPort, id: uint32, k: nat, token: uint64) {
    step.Packet? && step.from == a && IsPing(step.p) && step.p[4] == TYPE_PING
    && LE32(step.p, 8) == id && step.p[5] as nat == k && LE64(step.p, 12) == token
  }

  lemma NewBindingsArePinged(st: State, step: Step, a: AddrPort)
    requires Inv(st) && StepOk(step) && a in Do(st, step).bindings
    ensures var (st1, b) := (Do(st, step), Do(st, step).bindings[a]);
            && b.session in st1.sessions
            && (BoundBefore(st, st1, a) || PingedBy(step, a, b.session, b.peer, st1.sessions[b.session].token))
  {
    DoKeeps(st, step);
    var st1 := Do(st, step);
    assert Bound(st1, st1.bindings[a].session, st1.bindings[a].peer, a);
    if a in st.bindings {
      assert Bound(st, st.bindings[a].session, st.bindings[a].peer, a);
    }
    match step
    case Packet(p, from, now) =>
      if IsPing(p) && Authentic(st, p) {
        PingBindings(st, p, from, now, a);
      } else {
        assert BoundBefore(st, st1, a);
      }
    case SessionToken(_, _, _) =>
    case SetSessionToken(_, _, _) =>
    case RemoveStaleSessions(_) =>
  }

  /** a was bound to the same slot of a session with the same token. */
  predicate BoundBefore(st: State, st1: State, a: AddrPort)
    requires a in st1.bindings && st1.bindings[a].session in st1.sessions
  {
    var b := st1.bindings[a];
    && a in st.bindings && st.bindings[a] == b && b.session in st.sessions
    && st.sessions[b.session].token == st1.sessions[b.session].token
  }

  lemma PingBindings(st: State, p: seq<byte>, from: AddrPort, now: int, a: AddrPort)
    requires Inv(st) && from.Addr? && Authentic(st, p) && a in HandlePing(st, p, from, now).st.bindings
    requires var st1 := HandlePing(st, p, from, now).st; st1.bindings[a].session in st1.sessions
    ensures var st1 := HandlePing(st, p, from, now).st;
            var b := st1.bindings[a];
            BoundBefore(st, st1, a)
            || PingedBy(Packet(p, from, now), a, b.session, b.peer, st1.sessions[b.session].token)
  {
    RebindBindings(st, LE32(p, 8), p[5] as nat, from);
  }

  /** No token changes, and every binding was there before. */
  predicate SubBindings(st: State, st1: State) {
    && (forall a :: a in st1.bindings ==> a in st.bindings && st.bindings[a] == st1.bindings[a])
    && st1.sessions.Keys == st.sessions.Keys
    && forall i :: i in st.sessions ==> st1.sessions[i].token == st.sessions[i].token
  }

  lemma DetachSubBindings(st: State, a: AddrPort)
    requires a in st.bindings ==> st.Has(st.bindings[a].session, st.bindings[a].peer)
    ensures SubBindings(st, Detach(st, a))
  {
  }

  lemma SubBindingsTwice(st: State, st1: State, st2: State)
    requires SubBindings(st, st1) && SubBindings(st1, st2)
    ensures SubBindings(st, st2)
  {
  }

  /** As SubBindings, but for the binding of from. */
  predicate SubBindingsBut(st: State, st1: State, from: AddrPort, b: Binding) {
    && (forall a :: a in st1.bindings ==>
          if a == from then st1.bindings[a] == b else a in st.bindings && st.bindings[a] == st1.bindings[a])
    && st1.sessions.Keys == st.sessions.Keys
    && forall i :: i in st.sessions ==> st1.sessions[i].token == st.sessions[i].token
  }

  lemma AttachSubBindings(st: State, st1: State, id: uint32, k: nat, from: AddrPort)
    requires SubBindings(st, st1) && st1.Has(id, k)
    ensures SubBindingsBut(st, Attach(st1, id, k, from), from, Binding(id, k))
  {
  }

  lemma RebindBindings(st: State, id: uint32, k: nat, from: AddrPort)
    requires Inv(st) && st.Has(id, k) && from.Addr?
    ensures SubBindingsBut(st, Rebind(st, id, k, from), from, Binding(id, k))
  {
    var prev := st.SlotOf(id, k).At(from.is4);
    if prev == from {
      assert Bound(st, id, k, from);
    } else {
      DetachKeeps(st, prev);
      var st1 := Detach(st, prev);
      DetachKeeps(st1, from);
      DetachSubBindings(st, prev);
      DetachSubBindings(st1, from);
      SubBindingsTwice(st, st1, Detach(st1, from));
      AttachSubBindings(st, Detach(st1, from), id, k, from);
    }
  }

  /** In every reachable state, a bound address has pinged its slot with the session's current token. */
  lemma {:induction false} BoundAddressesAreAuthentic(steps: seq<Step>, a: AddrPort)
    requires StepsOk(steps) && a in Run(steps).bindings
    ensures var (st, b) := (Run(steps), Run(steps).bindings[a]);
            b.session in st.sessions &&
            exists step :: step in steps && PingedBy(step, a, b.session, b.peer, st.sessions[b.session].token)
    decreases |steps|
  {
    if steps != [] {
      var init, last := steps[..|steps| - 1], steps[|steps| - 1];
      NewBindingsArePinged(Run(init), last, a);
      var (st, b) := (Run(steps), Run(steps).bindings[a]);
      if PingedBy(last, a, b.session, b.peer, st.sessions[b.session].token) {
        assert last in steps;
      } else {
        BoundAddressesAreAuthentic(init, a);
        var step :| step in init && PingedBy(step, a, b.session, b.peer, st.sessions[b.session].token);
        assert step in steps;
      }
    }
  }

  // ---- Removal and restoration --------------------------------------------------------------

  /** Expiry removes exactly the stale sessions and exactly the bindings into them. */
  lemma ExpiryIsARestriction(st: State, now: int, a: AddrPort, id: uint32)
    requires Inv(st)
    ensures id in Expire(st, now).sessions <==> id in st.sessions && !Stale(st.sessions[id], now)
    ensures a in Expire(st, now).bindings <==> a in st.bindings && !Stale(st.sessions[st.bindings[a].session], now)
    ensures a in Expire(st, now).bindings ==> Expire(st, now).bindings[a] == st.bindings[a]
    ensures id in Expire(st, now).sessions ==> Expire(st, now).sessions[id] == st.sessions[id]
  {
    if a in st.bindings {
      assert Bound(st, st.bindings[a].session, st.bindings[a].peer, a);
    }
  }

  /** A GGPO packet q as a player wraps it for the relay: type 99, the relay magic, destination and type. */
  function Wrapped(q: seq<byte>, to: byte): seq<byte>
    requires |q| >= GGPO_HEADER_SIZE
  {
    q[7 := GGPO_TYPE_RELAY][8 := 203][9 := 102][10 := to][11 := q[7]]
  }

  /** The relay gives back the packet that was wrapped. */
  lemma RelayRestoresPacket(q: seq<byte>, to: byte)
    requires |q| >= GGPO_HEADER_SIZE && LE16(q, 0) == GGPO_CONST_MAGIC
    requires q[8] == q[9] == q[10] == q[11] == 0
    ensures IsRelayed(Wrapped(q, to)) && Restored(Wrapped(q, to)) == q
  {
  }
}
