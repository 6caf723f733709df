/** The GGPO relay of pkg/lobby/relay.go as a state machine on values: battle sessions with four player
    slots each, and the map from addresses back to slots. */
module RelayStates {
  import opened Bytes

  datatype AddrPort = NoAddr | Addr(is4: bool, host: nat, port: uint16)

  const MAX_PEERS: nat := 4
  const PING_MAGIC := 0x594c4552
  const PING_SIZE := 28
  const TYPE_PING: byte := 1
  const TYPE_PONG: byte := 2
  const GGPO_CONST_MAGIC := 34046
  const GGPO_RELAY_MAGIC := 26315
  const GGPO_TYPE_RELAY: byte := 99
  const GGPO_HEADER_SIZE := 12
  const GGPO_MIN_TYPE: byte := 1
  const GGPO_MAX_TYPE: byte := 8
  const SECOND: int := 1_000_000_000
  const IDLE_TIMEOUT: int := 120 * SECOND
  const MAX_LIFETIME: int := 3 * 3600 * SECOND

  /** The two families of addresses: IPv4 and the rest. */
  predicate Is4(a: AddrPort) {
    a.Addr? && a.is4
  }

  /** A player of a session: an address per family, and where packets for the player go. */
  datatype Slot = Slot(addr4: AddrPort, addr6: AddrPort, active: AddrPort, playing: bool)
  {
    function At(is4: bool): AddrPort {
      if is4 then addr4 else addr6
    }

    function Put(is4: bool, a: AddrPort): Slot {
      if is4 then this.(addr4 := a) else this.(addr6 := a)
    }

    /** unbind clears the family of addr, and the active path if that was addr. */
    function Unbind(a: AddrPort): Slot {
      var s := Put(Is4(a), NoAddr);
      if s.active == a then s.(active := NoAddr, playing := false) else s
    }

    predicate Valid() {
      && (addr4.Addr? ==> addr4.is4) && (addr6.Addr? ==> !addr6.is4)
      && (active.Addr? ==> active == At(Is4(active)))
      && (playing ==> active.Addr?)
    }
  }

  const EMPTY_SLOT := Slot(NoAddr, NoAddr, NoAddr, false)

  datatype Session = Session(token: uint64, peers: seq<Slot>, created: int, lastActive: int, forwarded: nat)

  datatype Binding = Binding(session: uint32, peer: nat)

  datatype State = State(sessions: map<uint32, Session>, bindings: map<AddrPort, Binding>)
  {
    predicate Has(id: uint32, k: nat) {
      id in sessions && k < |sessions[id].peers|
    }

    function SlotOf(id: uint32, k: nat): Slot
      requires Has(id, k)
    {
      sessions[id].peers[k]
    }

    function WithSlot(id: uint32, k: nat, slot: Slot): State
      requires Has(id, k)
    {
      this.(sessions := sessions[id := sessions[id].(peers := sessions[id].peers[k := slot])])
    }
  }

  const INIT := State(map[], map[])

  // ---- The invariant ------------------------------------------------------------------------

  /** Address a is the one of its family in slot k of session id. */
  predicate Bound(st: State, id: uint32, k: nat, a: AddrPort) {
    st.Has(id, k) && a.Addr? && st.SlotOf(id, k).At(a.is4) == a
  }

  /** Addresses lead to slots exactly as slots hold addresses. */
  ghost predicate Inverse(st: State) {
    && (forall a :: a in st.bindings ==> Bound(st, st.bindings[a].session, st.bindings[a].peer, a))
    && (forall id, k, a :: Bound(st, id, k, a) ==> a in st.bindings && st.bindings[a] == Binding(id, k))
  }

  ghost predicate SlotsValid(st: State) {
    forall id :: id in st.sessions ==>
      |st.sessions[id].peers| == MAX_PEERS && forall k :: 0 <= k < MAX_PEERS ==> st.sessions[id].peers[k].Valid()
  }

  ghost predicate Inv(st: State) {
    SlotsValid(st) && Inverse(st)
  }

  // ---- Binding and unbinding ----------------------------------------------------------------

  /** No slot holds a any more. */
  function Detach(st: State, a: AddrPort): State
    requires a in st.bindings ==> st.Has(st.bindings[a].session, st.bindings[a].peer)
  {
    if a !in st.bindings then st
    else
      var b := st.bindings[a];
      st.WithSlot(b.session, b.peer, st.SlotOf(b.session, b.peer).Unbind(a)).(bindings := st.bindings - {a})
  }

  /** Slot k of session id holds a. */
  function Attach(st: State, id: uint32, k: nat, a: AddrPort): State
    requires st.Has(id, k)
  {
    st.WithSlot(id, k, st.SlotOf(id, k).Put(Is4(a), a)).(bindings := st.bindings[a := Binding(id, k)])
  }

  lemma DetachKeeps(st: State, a: AddrPort)
    requires Inv(st)
    ensures Inv(Detach(st, a)) && a !in Detach(st, a).bindings
    ensures forall id, k {:trigger Detach(st, a).Has(id, k)} :: Detach(st, a).Has(id, k) <==> st.Has(id, k)
  {
    if a in st.bindings {
      var b, st1 := st.bindings[a], Detach(st, a);
      assert Bound(st, b.session, b.peer, a);
      forall x | x in st1.bindings
        ensures Bound(st1, st1.bindings[x].session, st1.bindings[x].peer, x)
      {
        assert Bound(st, st.bindings[x].session, st.bindings[x].peer, x);
      }
      forall id, k, x | Bound(st1, id, k, x)
        ensures x in st1.bindings && st1.bindings[x] == Binding(id, k)
      {
        assert Bound(st, id, k, x);
      }
    }
  }

  lemma AttachKeeps(st: State, id: uint32, k: nat, a: AddrPort)
    requires Inv(st) && st.Has(id, k) && a.Addr? && a !in st.bindings
    requires st.SlotOf(id, k).At(a.is4) == NoAddr
    ensures Inv(Attach(st, id, k, a))
  {
    var st1 := Attach(st, id, k, a);
    assert st.SlotOf(id, k).Valid();
    forall x | x in st1.bindings
      ensures Bound(st1, st1.bindings[x].session, st1.bindings[x].peer, x)
    {
      if x != a {
        assert Bound(st, st.bindings[x].session, st.bindings[x].peer, x);
      }
    }
    forall i: uint32, j: nat, x | Bound(st1, i, j, x)
      ensures x in st1.bindings && st1.bindings[x] == Binding(i, j)
    {
      assert !Bound(st, i, j, a);
      if x != a {
        assert Bound(st, i, j, x);
      }
    }
  }

  // ---- Packets ------------------------------------------------------------------------------

  predicate IsPing(p: seq<byte>) {
    |p| == PING_SIZE && LE32(p, 0) == PING_MAGIC
  }

  predicate IsRelayed(p: seq<byte>) {
    && GGPO_HEADER_SIZE <= |p| && LE16(p, 0) == GGPO_CONST_MAGIC
    && p[7] == GGPO_TYPE_RELAY && LE16(p, 8) == GGPO_RELAY_MAGIC
  }

  /** A ping that names a registered session by its token and one of the four slots. */
  predicate Authentic(st: State, p: seq<byte>) {
    && IsPing(p) && p[4] == TYPE_PING && p[5] as nat < MAX_PEERS
    && LE32(p, 8) in st.sessions && st.sessions[LE32(p, 8)].token == LE64(p, 12)
  }

  /** Binds from to slot k of session id, taking it from whoever had it and giving up the slot's old
      address of that family. */
  function Rebind(st: State, id: uint32, k: nat, from: AddrPort): State
    requires Inv(st) && st.Has(id, k)
  {
    if st.SlotOf(id, k).At(Is4(from)) == from then st
    else
      var prev := st.SlotOf(id, k).At(Is4(from));
      DetachKeeps(st, prev);
      DetachKeeps(Detach(st, prev), from);
      Attach(Detach(Detach(st, prev), from), id, k, from)
  }

  function Touch(st: State, id: uint32, k: nat, from: AddrPort, now: int): State
    requires st.Has(id, k)
  {
    var slot := st.SlotOf(id, k);
    var st1 := if slot.playing then st else st.WithSlot(id, k, slot.(active := from));
    st1.(sessions := st1.sessions[id := st1.sessions[id].(lastActive := now)])
  }

  /** What handling a packet gives: the new state, where to send it (NoAddr: dropped), and its bytes. */
  datatype Handled = Handled(st: State, dst: AddrPort, p: seq<byte>)

  function HandlePing(st: State, p: seq<byte>, from: AddrPort, now: int): Handled
    requires Inv(st) && IsPing(p) && from.Addr?
  {
    if !Authentic(st, p) then Handled(st, NoAddr, p)
    else
      var (id, k) := (LE32(p, 8), p[5] as nat);
      RebindKeeps(st, id, k, from);
      Handled(Touch(Rebind(st, id, k, from), id, k, from, now), from, p[4 := TYPE_PONG])
  }

  /** The header of a relayed packet names another slot and a GGPO type to restore. */
  predicate WellAddressed(p: seq<byte>)
    requires IsRelayed(p)
  {
    p[10] as nat < MAX_PEERS && GGPO_MIN_TYPE <= p[11] <= GGPO_MAX_TYPE
  }

  /** from is a bound member of a session and p names another slot of it. */
  predicate Relays(st: State, p: seq<byte>, from: AddrPort)
    requires IsRelayed(p)
  {
    WellAddressed(p) && from in st.bindings && p[10] as nat != st.bindings[from].peer
  }

  function Restored(p: seq<byte>): seq<byte>
    requires IsRelayed(p)
  {
    p[7 := p[11]][8 := 0][9 := 0][10 := 0][11 := 0]
  }

  function HandleGgpo(st: State, p: seq<byte>, from: AddrPort, now: int): Handled
    requires Inv(st) && IsRelayed(p)
  {
    if !Relays(st, p, from) then Handled(st, NoAddr, p)
    else
      var (id, k) := (st.bindings[from].session, st.bindings[from].peer);
      assert Bound(st, id, k, from);
      var st1 := PathSet(st, id, k, from);
      var dst := st1.SlotOf(id, p[10] as nat).active;
      if dst == NoAddr then Handled(st1, NoAddr, p) else Handled(Used(st1, id, now), dst, Restored(p))
  }

  /** The slot plays from a. */
  function PathSet(st: State, id: uint32, k: nat, a: AddrPort): State
    requires st.Has(id, k)
  {
    st.WithSlot(id, k, st.SlotOf(id, k).(active := a, playing := true))
  }

  /** The session forwarded one more packet. */
  function Used(st: State, id: uint32, now: int): State
    requires id in st.sessions
  {
    var s := st.sessions[id];
    st.(sessions := st.sessions[id := s.(lastActive := now, forwarded := s.forwarded + 1)])
  }

  function Handle(st: State, p: seq<byte>, from: AddrPort, now: int): Handled
    requires Inv(st) && from.Addr?
  {
    if IsPing(p) then HandlePing(st, p, from, now)
    else if IsRelayed(p) then HandleGgpo(st, p, from, now)
    else Handled(st, NoAddr, p)
  }

  // ---- Sessions -----------------------------------------------------------------------------

  function NewSession(token: uint64, now: int): Session {
    Session(token, [EMPTY_SLOT, EMPTY_SLOT, EMPTY_SLOT, EMPTY_SLOT], now, now, 0)
  }

  /** Only the given sessions stay, with the bindings into them. */
  function Keep(st: State, ids: set<uint32>): State {
    State(map id | id in st.sessions && id in ids :: st.sessions[id],
          map a | a in st.bindings && st.bindings[a].session in ids :: st.bindings[a])
  }

  predicate Stale(s: Session, now: int) {
    IDLE_TIMEOUT < now - s.lastActive || MAX_LIFETIME < now - s.created
  }

  function Alive(st: State, now: int): set<uint32> {
    set id | id in st.sessions && !Stale(st.sessions[id], now)
  }

  function Expire(st: State, now: int): State {
    Keep(st, Alive(st, now))
  }

  function Register(st: State, id: uint32, token: uint64, now: int): State {
    if id in st.sessions then st else st.(sessions := st.sessions[id := NewSession(token, now)])
  }

  function SetToken(st: State, id: uint32, token: uint64, now: int): State {
    if id in st.sessions && st.sessions[id].token == token then st
    else Register(Keep(st, st.sessions.Keys - {id}), id, token, now)
  }

  // ---- Every step keeps the invariant -------------------------------------------------------

  lemma RebindKeeps(st: State, id: uint32, k: nat, from: AddrPort)
    requires Inv(st) && st.Has(id, k) && from.Addr?
    ensures Inv(Rebind(st, id, k, from)) && Bound(Rebind(st, id, k, from), id, k, from)
  {
    var prev := st.SlotOf(id, k).At(from.is4);
    if prev != from {
      DetachKeeps(st, prev);
      DetachClears(st, id, k, from.is4);
      var st1 := Detach(st, prev);
      DetachKeeps(st1, from);
      DetachLeavesClear(st1, from, id, k, from.is4);
      AttachKeeps(Detach(st1, from), id, k, from);
      AttachBinds(Detach(st1, from), id, k, from);
    }
  }

  lemma DetachClears(st: State, id: uint32, k: nat, is4: bool)
    requires Inv(st) && st.Has(id, k)
    ensures var prev := st.SlotOf(id, k).At(is4);
            Detach(st, prev).Has(id, k) && Detach(st, prev).SlotOf(id, k).At(is4) == NoAddr
  {
    var prev := st.SlotOf(id, k).At(is4);
    assert st.SlotOf(id, k).Valid();
    if prev.Addr? {
      assert prev.is4 == is4;
      assert Bound(st, id, k, prev);
    }
  }

  lemma DetachLeavesClear(st: State, a: AddrPort, id: uint32, k: nat, is4: bool)
    requires Inv(st) && st.Has(id, k) && st.SlotOf(id, k).At(is4) == NoAddr
    ensures Detach(st, a).Has(id, k) && Detach(st, a).SlotOf(id, k).At(is4) == NoAddr
  {
  }

  lemma AttachBinds(st: State, id: uint32, k: nat, a: AddrPort)
    requires st.Has(id, k) && a.Addr?
    ensures Bound(Attach(st, id, k, a), id, k, a)
  {
  }

  /** Changing the active path to a bound address, and the session's times and counter. */
  lemma SessionChangeKeeps(st: State, id: uint32, k: nat, slot: Slot, st1: State)
    requires Inv(st) && st.Has(id, k) && slot.Valid()
    requires var s := st.SlotOf(id, k); (slot.addr4, slot.addr6) == (s.addr4, s.addr6)
    requires st1.bindings == st.bindings && st1.sessions.Keys == st.sessions.Keys
    requires forall i :: i in st.sessions ==>
               st1.sessions[i].peers == if i == id then st.sessions[i].peers[k := slot] else st.sessions[i].peers
    ensures Inv(st1)
  {
    assert forall i, j, a :: Bound(st1, i, j, a) <==> Bound(st, i, j, a);
  }

  lemma KeepKeeps(st: State, ids: set<uint32>)
    requires Inv(st)
    ensures Inv(Keep(st, ids))
  {
    var st1 := Keep(st, ids);
    forall i, j, a | Bound(st1, i, j, a)
      ensures a in st1.bindings && st1.bindings[a] == Binding(i, j)
    {
      assert Bound(st, i, j, a);
    }
    forall a | a in st1.bindings
      ensures Bound(st1, st1.bindings[a].session, st1.bindings[a].peer, a)
    {
      assert Bound(st, st.bindings[a].session, st.bindings[a].peer, a);
    }
  }

  lemma RegisterKeeps(st: State, id: uint32, token: uint64, now: int)
    requires Inv(st)
    ensures Inv(Register(st, id, token, now))
  {
    var st1 := Register(st, id, token, now);
    forall i, j, a | Bound(st1, i, j, a)
      ensures Bound(st, i, j, a)
    {
    }
    forall a | a in st1.bindings
      ensures Bound(st1, st1.bindings[a].session, st1.bindings[a].peer, a)
    {
      assert Bound(st, st.bindings[a].session, st.bindings[a].peer, a);
    }
  }

  lemma PingKeeps(st: State, p: seq<byte>, from: AddrPort, now: int)
    requires Inv(st) && from.Addr? && IsPing(p)
    ensures Inv(HandlePing(st, p, from, now).st)
  {
    if Authentic(st, p) {
      var (id, k) := (LE32(p, 8), p[5] as nat);
      RebindKeeps(st, id, k, from);
      var bound, st1 := Rebind(st, id, k, from), HandlePing(st, p, from, now).st;
      SessionChangeKeeps(bound, id, k, st1.SlotOf(id, k), st1);
    }
  }

  lemma GgpoKeeps(st: State, p: seq<byte>, from: AddrPort, now: int)
    requires Inv(st) && from.Addr? && IsRelayed(p)
    ensures Inv(HandleGgpo(st, p, from, now).st)
  {
    if Relays(st, p, from) {
      var (id, k) := (st.bindings[from].session, st.bindings[from].peer);
      assert Bound(st, id, k, from);
      SessionChangeKeeps(st, id, k, st.SlotOf(id, k).(active := from, playing := true),
                         HandleGgpo(st, p, from, now).st);
    }
  }

  lemma HandleKeeps(st: State, p: seq<byte>, from: AddrPort, now: int)
    requires Inv(st) && from.Addr?
    ensures Inv(Handle(st, p, from, now).st)
  {
    if IsPing(p) {
      PingKeeps(st, p, from, now);
    } else if IsRelayed(p) {
      GgpoKeeps(st, p, from, now);
    }
  }

  // ---- Runs ---------------------------------------------------------------------------------

  datatype Step =
    | Packet(p: seq<byte>, from: AddrPort, now: int)
    | SessionToken(id: uint32, token: uint64, now: int)
    | SetSessionToken(id: uint32, token: uint64, now: int)
    | RemoveStaleSessions(now: int)

  predicate StepOk(step: Step) {
    step.Packet? ==> step.from.Addr?
  }

  function Do(st: State, step: Step): State
    requires Inv(st) && StepOk(step)
  {
    match step
    case Packet(p, from, now) => Handle(st, p, from, now).st
    case SessionToken(id, token, now) => Register(st, id, token, now)
    case SetSessionToken(id, token, now) => SetToken(st, id, token, now)
    case RemoveStaleSessions(now) => Expire(st, now)
  }

  lemma DoKeeps(st: State, step: Step)
    requires Inv(st) && StepOk(step)
    ensures Inv(Do(st, step))
  {
    match step
    case Packet(p, from, now) => HandleKeeps(st, p, from, now);
    case SessionToken(id, token, now) => RegisterKeeps(st, id, token, now);
    case SetSessionToken(id, token, now) =>
      KeepKeeps(st, st.sessions.Keys - {id});
      RegisterKeeps(Keep(st, st.sessions.Keys - {id}), id, token, now);
    case RemoveStaleSessions(now) =>
      KeepKeeps(st, Alive(st, now));
  }

  /** The state after the steps, oldest first. */
  function Run(steps: seq<Step>): (st: State)
    requires forall step :: step in steps ==> StepOk(step)
    ensures Inv(st)
    decreases |steps|
  {
    if steps == [] then INIT
    else
      var before := Run(steps[..|steps| - 1]);
      DoKeeps(before, steps[|steps| - 1]);
      Do(before, steps[|steps| - 1])
  }
}
