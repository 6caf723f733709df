/** The Relay of pkg/lobby/relay.go: session objects shared between two maps and changed in place,
    packets rewritten in their buffer. View() is its value; every method follows RelayStates. */
module Relays {
  import opened Bytes
  import opened RelayStates

  class RelaySession {
    const id: uint32
    const token: uint64
    var peers: seq<Slot>
    const created: int
    var lastActive: int
    var forwarded: nat

    constructor (id: uint32, token: uint64, now: int)
      ensures this.id == id && this.token == token && View() == NewSession(token, now)
    {
      this.id, this.token := id, token;
      peers := [EMPTY_SLOT, EMPTY_SLOT, EMPTY_SLOT, EMPTY_SLOT];
      created, lastActive, forwarded := now, now, 0;
    }

    ghost function View(): Session
      reads this
    {
      Session(token, peers, created, lastActive, forwarded)
    }
  }

  datatype RelayBinding = RelayBinding(session: RelaySession, peer: nat)

  class Relay {
    var sessions: map<uint32, RelaySession>
    var bindings: map<AddrPort, RelayBinding>

    constructor ()
      ensures Valid() && View() == INIT && fresh(sessions.Values)
    {
      sessions, bindings := map[], map[];
    }

    ghost function View(): State
      reads this, sessions.Values
    {
      State(map id | id in sessions :: sessions[id].View(),
            map a | a in bindings :: Binding(bindings[a].session.id, bindings[a].peer))
    }

    predicate Registered(s: RelaySession)
      reads this
    {
      s.id in sessions && sessions[s.id] == s
    }

    /** Sessions are stored under their id, and bindings hold registered session objects. */
    ghost predicate Wired()
      reads this, sessions.Values
    {
      && (forall id :: id in sessions ==> sessions[id].id == id && |sessions[id].peers| == MAX_PEERS)
      && (forall a :: a in bindings ==> Registered(bindings[a].session) && bindings[a].peer < MAX_PEERS)
    }

    /** Methods that state only Wired() give a View() that keeps Inv by the lemmas of RelayStates. */
    ghost predicate Valid()
      reads this, sessions.Values
    {
      Wired() && Inv(View())
    }

    /** A write to a slot through its session object. */
    method SetSlot(s: RelaySession, k: nat, slot: Slot)
      requires Wired() && Registered(s) && k < MAX_PEERS
      modifies s`peers
      ensures Wired() && s.peers == old(s.peers)[k := slot]
      ensures old(View()).Has(s.id, k) && View() == old(View()).WithSlot(s.id, k, slot)
    {
      assert View().Has(s.id, k);
      s.peers := s.peers[k := slot];
    }

    method Unmap(a: AddrPort)
      requires Wired()
      modifies this`bindings
      ensures Wired() && bindings == old(bindings) - {a}
      ensures View() == old(View()).(bindings := old(View()).bindings - {a})
    {
      bindings := bindings - {a};
    }

    method Map(a: AddrPort, s: RelaySession, k: nat)
      requires Wired() && Registered(s) && k < MAX_PEERS
      modifies this`bindings
      ensures Wired()
      ensures View() == old(View()).(bindings := old(View()).bindings[a := Binding(s.id, k)])
    {
      ghost var v := View();
      bindings := bindings[a := RelayBinding(s, k)];
      assert View().bindings == v.bindings[a := Binding(s.id, k)];
    }

    method DropSession(s: RelaySession)
      requires Wired() && Registered(s)
      requires forall a :: a in View().bindings ==> View().bindings[a].session != s.id
      modifies this`sessions
      ensures Wired() && sessions == old(sessions) - {s.id}
      ensures View() == old(View()).(sessions := old(View()).sessions - {s.id})
    {
      assert forall a :: a in bindings ==> a in View().bindings;
      sessions := sessions - {s.id};
    }

    /** The session was used: its time and its count of forwarded packets. */
    method SetUse(s: RelaySession, lastActive: int, forwarded: nat)
      requires Wired() && Registered(s)
      modifies s`lastActive, s`forwarded
      ensures Wired()
      ensures s.id in old(View()).sessions
      ensures View() == old(View()).(sessions := old(View()).sessions[s.id :=
                          old(View()).sessions[s.id].(lastActive := lastActive, forwarded := forwarded)])
    {
      s.lastActive, s.forwarded := lastActive, forwarded;
    }

    method HandlePing(p: array<byte>, from: AddrPort, now: int) returns (dst: AddrPort)
      requires Valid() && IsPing(p[..]) && from.Addr?
      modifies this`bindings, sessions.Values, p
      ensures Wired() && sessions == old(sessions)
      ensures Handled(View(), dst, p[..]) == RelayStates.HandlePing(old(View()), old(p[..]), from, now)
    {
      if p[4] != TYPE_PING {
        return NoAddr;
      }
      var peer := p[5] as nat;
      var sessionId, token := LE32(p[..], 8), LE64(p[..], 12);
      if MAX_PEERS <= peer {
        return NoAddr;
      }
      if sessionId !in sessions || sessions[sessionId].token != token {
        return NoAddr;
      }
      ghost var v, packet := View(), p[..];
      assert Authentic(v, packet);
      AcceptPing(sessions[sessionId], peer, from, now);
      ghost var v1 := View();
      assert v1 == RelayStates.HandlePing(v, packet, from, now).st;
      p[4] := TYPE_PONG;
      assert View() == v1 && p[..] == packet[4 := TYPE_PONG];
      return from;
    }

    method AcceptPing(s: RelaySession, peer: nat, from: AddrPort, now: int)
      requires Valid() && Registered(s) && peer < MAX_PEERS && from.Addr?
      modifies this`bindings, sessions.Values
      ensures Wired() && sessions == old(sessions) && old(View()).Has(s.id, peer)
      ensures Rebind(old(View()), s.id, peer, from).Has(s.id, peer)
      ensures View() == Touch(Rebind(old(View()), s.id, peer, from), s.id, peer, from, now)
    {
      ghost var v1 := Rebind(View(), s.id, peer, from);
      RebindKeeps(View(), s.id, peer, from);
      Bind(s, peer, from);
      assert View() == v1 && v1.SlotOf(s.id, peer) == s.peers[peer];
      if !s.peers[peer].playing {
        SetSlot(s, peer, s.peers[peer].(active := from));
      }
      SetUse(s, now, s.forwarded);
    }

    /** The part of handlePing that moves from to slot peer of s. */
    method Bind(s: RelaySession, peer: nat, from: AddrPort)
      requires Valid() && Registered(s) && peer < MAX_PEERS && from.Addr?
      modifies this`bindings, sessions.Values`peers
      ensures Wired() && sessions == old(sessions)
      ensures old(View()).Has(s.id, peer) && View() == Rebind(old(View()), s.id, peer, from)
    {
      ghost var v := View();
      assert v.Has(s.id, peer) && v.SlotOf(s.id, peer) == s.peers[peer];
      var prev := s.peers[peer].At(Is4(from));
      if prev != from {
        DetachKeeps(v, prev);
        if prev.Addr? {
          GiveUp(s, peer, prev);
        } else {
          UnsetIsNotBound(v);
        }
        ghost var v1 := Detach(v, prev);
        assert View() == v1;
        DetachKeeps(v1, from);
        Take(s, peer, from);
      }
    }

    /** The slot's own address prev is unbound. */
    method GiveUp(s: RelaySession, peer: nat, prev: AddrPort)
      requires Valid() && Registered(s) && peer < MAX_PEERS && prev.Addr? && s.peers[peer].At(prev.is4) == prev
      modifies this`bindings, s`peers
      ensures Wired() && sessions == old(sessions)
      ensures View() == Detach(old(View()), prev)
    {
      OwnAddressIsBound(View(), s.id, peer, prev.is4);
      Unmap(prev);
      SetSlot(s, peer, s.peers[peer].Unbind(prev));
    }

    /** from goes to slot peer of s, away from whoever had it. */
    method Take(s: RelaySession, peer: nat, from: AddrPort)
      requires Wired() && Registered(s) && peer < MAX_PEERS
      modifies this`bindings, sessions.Values`peers
      ensures Wired() && sessions == old(sessions)
      ensures Detach(old(View()), from).Has(s.id, peer)
      ensures View() == Attach(Detach(old(View()), from), s.id, peer, from)
    {
      ghost var v1 := Detach(View(), from);
      Free(from);
      assert v1.Has(s.id, peer);
      AttachIgnoresOwnBinding(View(), s.id, peer, from);
      SetSlot(s, peer, s.peers[peer].Put(Is4(from), from));
      Map(from, s, peer);
    }

    /** The slot that has from gives it up. */
    method Free(from: AddrPort)
      requires Wired()
      modifies sessions.Values`peers
      ensures Wired() && (sessions, bindings) == old((sessions, bindings))
      ensures View().(bindings := View().bindings - {from}) == Detach(old(View()), from)
    {
      ghost var v := View();
      if from in bindings {
        var b := bindings[from];
        SetSlot(b.session, b.peer, b.session.peers[b.peer].Unbind(from));
      } else {
        assert v.bindings - {from} == v.bindings;
      }
    }

    method HandleGgpo(p: array<byte>, from: AddrPort, now: int) returns (dst: AddrPort)
      requires Valid() && IsRelayed(p[..]) && from.Addr?
      modifies sessions.Values, p
      ensures Wired() && sessions == old(sessions)
      ensures Handled(View(), dst, p[..]) == RelayStates.HandleGgpo(old(View()), old(p[..]), from, now)
    {
      var to, orgType := p[10] as nat, p[11];
      if MAX_PEERS <= to || orgType < GGPO_MIN_TYPE || GGPO_MAX_TYPE < orgType {
        return NoAddr;
      }
      if from !in bindings || to == bindings[from].peer {
        return NoAddr;
      }
      dst := RelayOn(p, bindings[from], to, from, now);
    }

    method RelayOn(p: array<byte>, b: RelayBinding, to: nat, from: AddrPort, now: int) returns (dst: AddrPort)
      requires Valid() && from in bindings && bindings[from] == b && from.Addr?
      requires IsRelayed(p[..]) && RelayStates.Relays(View(), p[..], from) && to == p[10] as nat
      modifies sessions.Values, p
      ensures Wired() && sessions == old(sessions)
      ensures Handled(View(), dst, p[..]) == RelayStates.HandleGgpo(old(View()), old(p[..]), from, now)
    {
      ghost var packet := p[..];
      ghost var v := View();
      assert v.bindings[from] == Binding(b.session.id, b.peer);
      dst := Forward(b, to, from, now);
      ghost var v1 := View();
      ghost var handled := RelayStates.HandleGgpo(v, packet, from, now);
      assert (v1, dst) == (handled.st, handled.dst);
      if dst.Addr? {
        Restore(p);
        assert View() == v1;
      }
    }

    /** The original type comes back in place, the relay header is zeroed. */
    method Restore(p: array<byte>)
      requires IsRelayed(p[..])
      modifies p
      ensures p[..] == Restored(old(p[..]))
    {
      p[7] := p[11];
      p[8], p[9], p[10], p[11] := 0, 0, 0, 0;
    }

    /** The sender's path, and where packets for slot to go. */
    method Forward(b: RelayBinding, to: nat, from: AddrPort, now: int) returns (dst: AddrPort)
      requires Wired() && Registered(b.session) && b.peer < MAX_PEERS && to < MAX_PEERS
      modifies sessions.Values
      ensures Wired() && sessions == old(sessions) && old(View()).Has(b.session.id, b.peer)
      ensures var st1 := PathSet(old(View()), b.session.id, b.peer, from);
              && st1.Has(b.session.id, to) && dst == st1.SlotOf(b.session.id, to).active
              && View() == if dst.Addr? then Used(st1, b.session.id, now) else st1
    {
      SetSlot(b.session, b.peer, b.session.peers[b.peer].(active := from, playing := true));
      ghost var v1 := View();
      dst := b.session.peers[to].active;
      assert v1.sessions[b.session.id] == b.session.View();
      if dst.Addr? {
        SetUse(b.session, now, b.session.forwarded + 1);
      }
    }

    method HandlePacket(p: array<byte>, from: AddrPort, now: int) returns (dst: AddrPort)
      requires Valid() && from.Addr?
      modifies this`bindings, sessions.Values, p
      ensures Valid() && sessions == old(sessions)
      ensures Handled(View(), dst, p[..]) == Handle(old(View()), old(p[..]), from, now)
    {
      ghost var v, packet := View(), p[..];
      HandleKeeps(v, packet, from, now);
      if p.Length == PING_SIZE && LE32(p[..], 0) == PING_MAGIC {
        dst := HandlePing(p, from, now);
      } else if GGPO_HEADER_SIZE <= p.Length && LE16(p[..], 0) == GGPO_CONST_MAGIC
                && p[7] == GGPO_TYPE_RELAY && LE16(p[..], 8) == GGPO_RELAY_MAGIC {
        dst := HandleGgpo(p, from, now);
      } else {
        dst := NoAddr;
      }
      assert Handled(View(), dst, p[..]) == Handle(v, packet, from, now);
    }

    /** random is the token drawn if the session is new. */
    method SessionToken(id: uint32, random: uint64, now: int) returns (token: uint64)
      requires Valid()
      modifies this`sessions
      ensures Valid() && View() == Register(old(View()), id, random, now)
      ensures id in sessions && token == sessions[id].token
    {
      if id in sessions {
        return sessions[id].token;
      }
      AddSession(id, random, now);
      return random;
    }

    method AddSession(id: uint32, token: uint64, now: int)
      requires Valid() && id !in sessions
      modifies this`sessions
      ensures Valid() && View() == Register(old(View()), id, token, now)
      ensures id in sessions && sessions[id].token == token
    {
      ghost var v := View();
      RegisterKeeps(v, id, token, now);
      var s := new RelaySession(id, token, now);
      sessions := sessions[id := s];
      assert s.View() == NewSession(token, now);
      assert View().sessions == v.sessions[id := NewSession(token, now)];
      assert View().bindings == v.bindings;
    }

    method SetSessionToken(id: uint32, token: uint64, now: int)
      requires Valid()
      modifies this
      ensures Valid() && View() == SetToken(old(View()), id, token, now)
    {
      ghost var v := View();
      if id in sessions {
        var s := sessions[id];
        if s.token == token {
          return;
        }
        RemoveSession(s);
      } else {
        KeepWithoutAbsent(v, id);
      }
      assert View() == Keep(v, v.sessions.Keys - {id});
      KeepKeeps(v, v.sessions.Keys - {id});
      AddSession(id, token, now);
    }

    /** removeSessionLocked: the addresses of the session's slots are unbound. */
    method RemoveSession(s: RelaySession)
      requires Valid() && Registered(s)
      modifies this
      ensures Wired() && sessions == old(sessions) - {s.id}
      ensures View() == Keep(old(View()), old(View()).sessions.Keys - {s.id})
    {
      ghost var v := View();
      UnmapSlots(s);
      SessionAddresses(v, s.id, s.peers);
      DropSession(s);
      KeepAllBut(v, s.id, AddressesOf(s.peers));
    }

    method UnmapSlots(s: RelaySession)
      requires Wired() && Registered(s)
      modifies this`bindings
      ensures Wired()
      ensures View() == old(View()).(bindings := old(View()).bindings - AddressesOf(s.peers))
    {
      ghost var v := View();
      for k := 0 to MAX_PEERS
        invariant Wired()
        invariant View() == v.(bindings := v.bindings - AddressesOf(s.peers[..k]))
      {
        assert s.peers[..k + 1][..k] == s.peers[..k];
        UnmapSlot(s.peers[k]);
        MinusTwice(v.bindings, AddressesOf(s.peers[..k]), SlotAddresses(s.peers[k]));
      }
      assert s.peers[..MAX_PEERS] == s.peers;
    }

    method UnmapSlot(slot: Slot)
      requires Wired()
      modifies this`bindings
      ensures Wired()
      ensures View() == old(View()).(bindings := old(View()).bindings - SlotAddresses(slot))
    {
      ghost var v := View();
      if slot.addr4.Addr? {
        Unmap(slot.addr4);
      }
      if slot.addr6.Addr? {
        Unmap(slot.addr6);
      }
      assert View().bindings == v.bindings - SlotAddresses(slot);
    }

    method RemoveStaleSessions(now: int)
      requires Valid()
      modifies this
      ensures Wired() && View() == Expire(old(View()), now)
    {
      ghost var v := View();
      KeepAll(v);
      assert sessions.Keys == v.sessions.Keys;
      RemoveAllStale(v, now);
    }

    /** The loop: each session is looked at once, in any order. */
    method RemoveAllStale(ghost v: State, now: int)
      requires Wired() && Inv(v)
      requires sessions.Keys == v.sessions.Keys && View() == Keep(v, sessions.Keys)
      modifies this
      ensures Wired() && sessions.Keys == Alive(v, now) && View() == Keep(v, sessions.Keys)
    {
      var ids := sessions.Keys;
      while ids != {}
        invariant Wired() && ids <= v.sessions.Keys
        invariant sessions.Keys == ids + Alive(v, now) && View() == Keep(v, sessions.Keys)
        decreases ids
      {
        var id :| id in ids;
        RemoveIfStale(sessions[id], v, now);
        ids := ids - {id};
        assert sessions.Keys == ids + Alive(v, now);
      }
      assert sessions.Keys == Alive(v, now);
    }

    /** One round of the loop. */
    method RemoveIfStale(s: RelaySession, ghost v: State, now: int)
      requires Wired() && Registered(s) && Inv(v)
      requires View() == Keep(v, sessions.Keys) && sessions.Keys <= v.sessions.Keys
      modifies this
      ensures Wired() && View() == Keep(v, sessions.Keys)
      ensures sessions.Keys == old(sessions.Keys) - if Stale(v.sessions[s.id], now) then {s.id} else {}
    {
      assert View().sessions[s.id] == s.View() == v.sessions[s.id];
      if IDLE_TIMEOUT < now - s.lastActive || MAX_LIFETIME < now - s.created {
        KeepTwice(v, sessions.Keys, s.id);
        KeepKeeps(v, sessions.Keys);
        RemoveSession(s);
      }
    }
  }

  // ---- Facts about the value of the relay ---------------------------------------------------

  lemma MinusTwice(m: map<AddrPort, Binding>, a: set<AddrPort>, b: set<AddrPort>)
    ensures (m - a) - b == m - (a + b)
  {
  }

  function SlotAddresses(slot: Slot): set<AddrPort> {
    (if slot.addr4.Addr? then {slot.addr4} else {}) + (if slot.addr6.Addr? then {slot.addr6} else {})
  }

  function AddressesOf(peers: seq<Slot>): set<AddrPort> {
    if peers == [] then {} else AddressesOf(peers[..|peers| - 1]) + SlotAddresses(peers[|peers| - 1])
  }

  lemma {:induction false} InAddressesOf(peers: seq<Slot>, a: AddrPort)
    ensures a in AddressesOf(peers) <==> exists k :: 0 <= k < |peers| && a in SlotAddresses(peers[k])
    decreases |peers|
  {
    if peers != [] {
      InAddressesOf(peers[..|peers| - 1], a);
    }
  }

  lemma AttachIgnoresOwnBinding(v: State, id: uint32, k: nat, from: AddrPort)
    requires v.Has(id, k)
    ensures Attach(v, id, k, from) == Attach(v.(bindings := v.bindings - {from}), id, k, from)
  {
  }

  lemma OwnAddressIsBound(v: State, id: uint32, k: nat, is4: bool)
    requires Inv(v) && v.Has(id, k) && v.SlotOf(id, k).At(is4).Addr?
    ensures var a := v.SlotOf(id, k).At(is4);
            a in v.bindings && v.bindings[a] == Binding(id, k)
  {
    assert v.SlotOf(id, k).Valid();
    assert Bound(v, id, k, v.SlotOf(id, k).At(is4));
  }

  lemma UnsetIsNotBound(v: State)
    requires Inverse(v)
    ensures NoAddr !in v.bindings
  {
  }

  lemma KeepWithoutAbsent(v: State, id: uint32)
    requires Inverse(v) && id !in v.sessions
    ensures Keep(v, v.sessions.Keys - {id}) == v
  {
    assert v.sessions.Keys - {id} == v.sessions.Keys;
    KeepAll(v);
  }

  lemma KeepAll(v: State)
    requires Inverse(v)
    ensures Keep(v, v.sessions.Keys) == v
  {
    forall a | a in v.bindings
      ensures v.bindings[a].session in v.sessions
    {
      assert Bound(v, v.bindings[a].session, v.bindings[a].peer, a);
    }
  }

  lemma KeepAllBut(v: State, id: uint32, addrs: set<AddrPort>)
    requires Inverse(v)
    requires forall a :: a in v.bindings ==> (v.bindings[a].session == id <==> a in addrs)
    ensures Keep(v, v.sessions.Keys - {id}) == State(v.sessions - {id}, v.bindings - addrs)
  {
    KeepAll(v);
  }

  lemma KeepTwice(v: State, ids: set<uint32>, id: uint32)
    requires ids <= v.sessions.Keys
    ensures Keep(Keep(v, ids), Keep(v, ids).sessions.Keys - {id}) == Keep(v, ids - {id})
  {
  }

  /** The addresses in a session's slots are exactly those bound to it. */
  lemma SessionAddresses(v: State, id: uint32, peers: seq<Slot>)
    requires Inv(v) && id in v.sessions && v.sessions[id].peers == peers
    ensures forall a :: a in v.bindings ==> (v.bindings[a].session == id <==> a in AddressesOf(peers))
  {
    forall a | a in v.bindings
      ensures v.bindings[a].session == id <==> a in AddressesOf(peers)
    {
      var b := v.bindings[a];
      assert Bound(v, b.session, b.peer, a);
      InAddressesOf(peers, a);
      if a in AddressesOf(peers) {
        var k :| 0 <= k < |peers| && a in SlotAddresses(peers[k]);
        OwnAddressIsBound(v, id, k, a == peers[k].addr4);
      }
    }
  }
}
