/** A battle over the server: every player's client, the server's end of each connection, and the room
    that passes what one connection delivers into the send buffers of the others. */
module TwoHop {
  import opened Wrappers
  import opened Bytes
  import opened BattleBuffers
  import opened ReliableLink

  /** One player. processed counts the messages the server's Serve loop took from what its filter let
      through; pos is the place Room.Join gave; accept is the client's list of the other players. */
  datatype Player = Player(
    link: Link,
    accept: set<string>,
    processed: nat,
    joined: bool,
    pos: nat,
    stopped: bool,
    left: bool)

  /** clearing counts the Leave calls that saw an empty room and have not cleared it yet: Room.Leave
      drops the lock in between, so others may join before. */
  datatype Battle = Battle(players: map<string, Player>, places: seq<Option<string>>, clearing: nat)

  datatype BattleStep =
    | Network(user: string, step: LinkStep)
    | Generate(user: string, body: seq<byte>)
    | FailJoin(user: string)
    | Join(user: string)
    | Forward(user: string)
    | Stop(user: string)
    | Leave(user: string)
    | Clear

  /** v stands in a place of the room other than k. */
  predicate Receives(places: seq<Option<string>>, v: string, k: nat) {
    exists i :: 0 <= i < |places| && i != k && places[i] == Some(v)
  }

  function PushTo(p: Player, msg: BattleMessage): Player {
    p.(link := p.link.(server := Push(p.link.server, msg)))
  }

  /** Room.SendMessage from place k. */
  function SendToOthers(b: Battle, k: nat, msg: BattleMessage): map<string, Player> {
    map v | v in b.players ::
      if Receives(b.places, v, k) then PushTo(b.players[v], msg) else b.players[v]
  }

  predicate CanTake(p: Player) {
    !p.stopped && p.processed < |p.link.server.passed|
  }

  function Generated(p: Player, msg: BattleMessage): Player {
    p.(link := p.link.(client := Push(p.link.client, msg)))
  }

  function Joined(b: Battle, u: string): Player
    requires u in b.players
  {
    b.players[u].(processed := b.players[u].processed + 1, joined := true, pos := |b.places|)
  }

  function Vacate(places: seq<Option<string>>, pos: nat): seq<Option<string>> {
    if pos < |places| then places[pos := None] else places
  }

  predicate CanStep(b: Battle, step: BattleStep) {
    match step
    case Clear => b.clearing > 0
    case _ =>
      step.user in b.players &&
      var p := b.players[step.user];
      match step
      case Network(_, s) => !s.PushStep? && Enabled(p.link, s)
      case Generate(_, body) => InRange(p.link.client.log + [BattleMessage(step.user, 0, body)])
      case FailJoin(_) => !p.joined && CanTake(p)
      case Join(_) => !p.joined && CanTake(p)
      case Forward(_) =>
        p.joined && CanTake(p)
        && forall v :: v in b.players && Receives(b.places, v, p.pos) ==>
            |b.players[v].link.server.log| + 2 + WINDOW < WORD32
      case Stop(_) => true
      case Leave(_) => p.joined && p.stopped && !p.left
  }

  function Next(b: Battle, step: BattleStep): Battle
    requires CanStep(b, step)
  {
    match step
    case Clear => b.(clearing := b.clearing - 1, places := [])
    case Network(u, s) =>
      var p := b.players[u];
      b.(players := b.players[u := p.(link := Apply(p.link, s))])
    case Generate(u, body) =>
      var p := b.players[u];
      b.(players := b.players[u := Generated(p, BattleMessage(u, |p.link.client.log| + 1, body))])
    case FailJoin(u) =>
      var p := b.players[u];
      b.(players := b.players[u := p.(processed := p.processed + 1)])
    case Join(u) =>
      b.(players := b.players[u := Joined(b, u)], places := b.places + [Some(u)])
    case Forward(u) =>
      var p := b.players[u];
      var sent := SendToOthers(b, p.pos, p.link.server.passed[p.processed]);
      b.(players := sent[u := sent[u].(processed := p.processed + 1)])
    case Stop(u) => b.(players := b.players[u := b.players[u].(stopped := true)])
    case Leave(u) =>
      var p := b.players[u];
      var places := Vacate(b.places, p.pos);
      b.(players := b.players[u := p.(left := true)],
         places := places,
         clearing := b.clearing + if forall i :: 0 <= i < |places| ==> places[i] == None then 1 else 0)
  }

  // ---- Invariant ----------------------------------------------------------------------------

  /** A client numbers its messages 1, 2, 3, ... */
  predicate Numbered(user: string, log: seq<BattleMessage>) {
    forall k :: 0 <= k < |log| ==> log[k].userId == user && log[k].number == k + 1
  }

  ghost predicate PlayerInv(user: string, p: Player) {
    && LinkInv(p.link, {user}, p.accept)
    && Numbered(user, p.link.client.log)
    && p.processed <= |p.link.server.passed|
    && (!p.joined ==> p.link.server.log == [] && !p.left)
  }

  /** Whoever stands in a place joined there and has not left. */
  predicate Seated(players: map<string, Player>, places: seq<Option<string>>) {
    forall i :: 0 <= i < |places| && places[i].Some? ==>
      places[i].value in players && SeatedAt(players[places[i].value], i)
  }

  predicate SeatedAt(p: Player, i: nat) {
    p.joined && !p.left && p.pos == i
  }

  /** user's messages in log are consecutive ones of those sent, and up to date while log receives them. */
  predicate Relayed(user: string, sent: seq<BattleMessage>, processed: nat, log: seq<BattleMessage>, receives: bool) {
    var (f, h) := (FromUser(log, user), LastNumber(log, user));
    && |f| <= h <= processed <= |sent|
    && f == sent[h - |f|..h]
    && (f == [] <==> h == 0)
    && (f != [] && receives ==> h == processed)
  }

  /** The messages of u (state p) in the buffer of v (state q). */
  predicate PairInv(u: string, p: Player, v: string, q: Player, places: seq<Option<string>>) {
    && Relayed(u, p.link.client.log, p.processed, q.link.server.log, p.joined && Receives(places, v, p.pos))
    && (!p.joined ==> FromUser(q.link.server.log, u) == [])
  }

  ghost predicate PlayersInv(players: map<string, Player>) {
    forall u {:trigger PlayerInv(u, players[u])} :: u in players ==> PlayerInv(u, players[u])
  }

  ghost predicate PairsInv(players: map<string, Player>, places: seq<Option<string>>) {
    forall u, v {:trigger PairInv(u, players[u], v, players[v], places)} ::
      u in players && v in players ==> PairInv(u, players[u], v, players[v], places)
  }

  ghost predicate BattleInv(b: Battle) {
    PlayersInv(b.players) && Seated(b.players, b.places) && PairsInv(b.players, b.places)
  }

  function NewPlayer(user: string, accept: set<string>): Player {
    Player(NewLink({user}, accept), accept, 0, false, 0, false, false)
  }

  predicate Start(b: Battle) {
    b.places == [] && b.clearing == 0 &&
    forall u :: u in b.players ==> b.players[u] == NewPlayer(u, b.players[u].accept)
  }

  lemma StartInv(b: Battle)
    requires Start(b)
    ensures BattleInv(b)
  {
    forall u | u in b.players
      ensures PlayerInv(u, b.players[u])
    {
      LinkStarts({u}, b.players[u].accept);
    }
    forall u, v | u in b.players && v in b.players
      ensures PairInv(u, b.players[u], v, b.players[v], b.places)
    {
      assert b.players[v].link.server.log == [];
    }
  }

  /** What the server let through of a player is a prefix of that player's messages. */
  lemma PassedIsPrefix(user: string, p: Player)
    requires PlayerInv(user, p)
    ensures p.link.server.passed <= p.link.client.log
  {
    AcceptedAll(user, p.link.client.log, p.link.server.frontier);
  }

  lemma {:induction false} AcceptedAll(user: string, log: seq<BattleMessage>, n: nat)
    requires n <= |log| && forall m :: m in log ==> m.userId == user
    ensures Accepted(log, n, {user}) == log[..n]
  {
    if n > 0 {
      AcceptedAll(user, log, n - 1);
      assert log[n - 1] in log;
      assert log[..n] == log[..n - 1] + [log[n - 1]];
    }
  }

  // ---- Each step keeps the invariant --------------------------------------------------------

  lemma RelayedSentMore(user: string, sent: seq<BattleMessage>, msg: BattleMessage, processed: nat,
                        log: seq<BattleMessage>, receives: bool)
    requires Relayed(user, sent, processed, log, receives)
    ensures Relayed(user, sent + [msg], processed, log, receives)
  {
    var (f, h) := (FromUser(log, user), LastNumber(log, user));
    assert (sent + [msg])[h - |f|..h] == sent[h - |f|..h];
  }

  /** A message of another user goes into log. */
  lemma RelayedOther(user: string, sent: seq<BattleMessage>, processed: nat, log: seq<BattleMessage>, receives: bool,
                     msg: BattleMessage)
    requires Relayed(user, sent, processed, log, receives) && msg.userId != user
    ensures Relayed(user, sent, processed, log + [msg], receives)
    ensures FromUser(log + [msg], user) == FromUser(log, user)
  {
    FromUserConcat(log, [msg], user);
    FromUserOne(msg, user);
    assert FromUser(log, user) + [] == FromUser(log, user);
    assert (log + [msg])[..|log|] == log;
  }

  /** user's next message goes into a log that was up to date: it continues the numbering there. */
  lemma RelayedNext(user: string, sent: seq<BattleMessage>, processed: nat, log: seq<BattleMessage>)
    requires Relayed(user, sent, processed, log, true) && Numbered(user, sent) && processed < |sent|
    ensures Continues(log, sent[processed])
    ensures Relayed(user, sent, processed + 1, log + [sent[processed]], true)
  {
    var msg := sent[processed];
    var (f, h) := (FromUser(log, user), LastNumber(log, user));
    FromUserConcat(log, [msg], user);
    FromUserOne(msg, user);
    assert (log + [msg])[..|log|] == log;
    assert LastNumber(log + [msg], user) == processed + 1;
    if f == [] {
      assert sent[processed..processed + 1] == [msg] == f + [msg];
    } else {
      assert sent[h - |f|..h + 1] == sent[h - |f|..h] + [msg];
    }
  }

  lemma OnePlayerChanged(players: map<string, Player>, u: string, p1: Player)
    requires PlayersInv(players) && PlayerInv(u, p1)
    ensures PlayersInv(players[u := p1])
  {
  }

  /** Nothing changed for who was pushed what: the logs, the counts and the places stand. */
  predicate SameRelaying(p: Player, p1: Player) {
    && (p1.link.client.log, p1.link.server.log) == (p.link.client.log, p.link.server.log)
    && (p1.processed, p1.joined, p1.pos, p1.left) == (p.processed, p.joined, p.pos, p.left)
  }

  lemma SameRelayingKeepsPair(v: string, q: Player, q1: Player, w: string, r: Player, r1: Player,
                              places: seq<Option<string>>)
    requires PairInv(v, q, w, r, places) && SameRelaying(q, q1) && SameRelaying(r, r1)
    ensures PairInv(v, q1, w, r1, places)
  {
  }

  lemma SameRelayingKeepsPairs(players: map<string, Player>, places: seq<Option<string>>, u: string, p1: Player)
    requires PairsInv(players, places)
    requires u in players && SameRelaying(players[u], p1)
    ensures PairsInv(players[u := p1], places)
  {
    var players1 := players[u := p1];
    forall v, w | v in players && w in players
      ensures PairInv(v, players1[v], w, players1[w], places)
    {
      assert PairInv(v, players[v], w, players[w], places);
      SameRelayingKeepsPair(v, players[v], players1[v], w, players[w], players1[w], places);
    }
  }

  lemma SeatsKept(players: map<string, Player>, places: seq<Option<string>>, u: string, p1: Player)
    requires Seated(players, places) && u in players
    requires var p := players[u]; (p1.joined, p1.left, p1.pos) == (p.joined, p.left, p.pos) || !p.joined
    ensures Seated(players[u := p1], places)
  {
  }

  lemma NetworkKeeps(b: Battle, u: string, s: LinkStep)
    requires BattleInv(b) && u in b.players && !s.PushStep? && Enabled(b.players[u].link, s)
    ensures BattleInv(b.(players := b.players[u := b.players[u].(link := Apply(b.players[u].link, s))]))
  {
    var p := b.players[u];
    var p1 := p.(link := Apply(p.link, s));
    assert PlayerInv(u, p);
    NetworkKeepsPlayer(u, p, s);
    OnePlayerChanged(b.players, u, p1);
    SeatsKept(b.players, b.places, u, p1);
    SameRelayingKeepsPairs(b.players, b.places, u, p1);
  }

  lemma NetworkKeepsPlayer(u: string, p: Player, s: LinkStep)
    requires PlayerInv(u, p) && !s.PushStep? && Enabled(p.link, s)
    ensures PlayerInv(u, p.(link := Apply(p.link, s))) && SameRelaying(p, p.(link := Apply(p.link, s)))
  {
    LinkKeepsInv(p.link, s, {u}, p.accept);
  }

  lemma StopKeeps(b: Battle, u: string)
    requires BattleInv(b) && u in b.players
    ensures BattleInv(b.(players := b.players[u := b.players[u].(stopped := true)]))
  {
    var p1 := b.players[u].(stopped := true);
    assert PlayerInv(u, b.players[u]);
    OnePlayerChanged(b.players, u, p1);
    SeatsKept(b.players, b.places, u, p1);
    SameRelayingKeepsPairs(b.players, b.places, u, p1);
  }

  lemma GenerateKeeps(b: Battle, u: string, msg: BattleMessage)
    requires BattleInv(b) && u in b.players
    requires var log := b.players[u].link.client.log;
             InRange(log + [msg]) && msg.userId == u && msg.number == |log| + 1
    ensures BattleInv(b.(players := b.players[u := Generated(b.players[u], msg)]))
  {
    var p := b.players[u];
    var p1 := Generated(p, msg);
    assert PlayerInv(u, p);
    GenerateKeepsPlayer(u, p, msg);
    OnePlayerChanged(b.players, u, p1);
    SeatsKept(b.players, b.places, u, p1);
    var players1 := b.players[u := p1];
    forall v, w | v in b.players && w in b.players
      ensures PairInv(v, players1[v], w, players1[w], b.places)
    {
      assert PairInv(v, b.players[v], w, b.players[w], b.places);
      GeneratedKeepsPair(v, b.players[v], players1[v], w, b.players[w], players1[w], b.places, msg);
    }
  }

  lemma GeneratedKeepsPair(v: string, q: Player, q1: Player, w: string, r: Player, r1: Player,
                           places: seq<Option<string>>, msg: BattleMessage)
    requires PairInv(v, q, w, r, places)
    requires q1 == q || q1 == Generated(q, msg)
    requires r1 == r || r1 == Generated(r, msg)
    ensures PairInv(v, q1, w, r1, places)
  {
    if q1 != q {
      RelayedSentMore(v, q.link.client.log, msg, q.processed, r.link.server.log,
                      q.joined && Receives(places, w, q.pos));
    }
  }

  lemma GenerateKeepsPlayer(u: string, p: Player, msg: BattleMessage)
    requires PlayerInv(u, p)
    requires InRange(p.link.client.log + [msg]) && msg.userId == u && msg.number == |p.link.client.log| + 1
    ensures PlayerInv(u, Generated(p, msg))
  {
    var l := p.link;
    NumberedMore(u, l.client.log, msg);
    FlowPush(l.client, l.server, l.up, l.down, {u}, msg);
    FlowIgnoresReceiverLog(l.server, l.client, Push(l.client, msg), l.down, l.up, p.accept);
  }

  lemma NumberedMore(u: string, log: seq<BattleMessage>, msg: BattleMessage)
    requires Numbered(u, log) && msg.userId == u && msg.number == |log| + 1
    ensures Continues(log, msg) && Numbered(u, log + [msg])
  {
    assert LastNumber(log, u) == |log|;
  }

  lemma FailJoinKeeps(b: Battle, u: string)
    requires BattleInv(b) && u in b.players && !b.players[u].joined && CanTake(b.players[u])
    ensures BattleInv(b.(players := b.players[u := b.players[u].(processed := b.players[u].processed + 1)]))
  {
    var p := b.players[u];
    var p1 := p.(processed := p.processed + 1);
    assert PlayerInv(u, p);
    PassedIsPrefix(u, p);
    OnePlayerChanged(b.players, u, p1);
    SeatsKept(b.players, b.places, u, p1);
    TakenKeepsPairs(b.players, b.places, u, p1);
  }

  lemma TakenKeepsPairs(players: map<string, Player>, places: seq<Option<string>>, u: string, p1: Player)
    requires PairsInv(players, places) && u in players && Taken(players[u], p1)
    ensures PairsInv(players[u := p1], places)
  {
    var players1 := players[u := p1];
    forall v, w | v in players && w in players
      ensures PairInv(v, players1[v], w, players1[w], places)
    {
      assert PairInv(v, players[v], w, players[w], places);
      TakenKeepsPair(v, players[v], players1[v], w, players[w], players1[w], places);
    }
  }

  /** q1 is q, or q before it joined after one more message was taken. */
  predicate Taken(q: Player, q1: Player) {
    q1 == q
    || (!q.joined && q.processed < |q.link.client.log|
        && q1 == q.(processed := q.processed + 1, joined := q1.joined, pos := q1.pos))
  }

  lemma TakenKeepsPair(v: string, q: Player, q1: Player, w: string, r: Player, r1: Player, places: seq<Option<string>>)
    requires PairInv(v, q, w, r, places) && Taken(q, q1) && Taken(r, r1)
    ensures PairInv(v, q1, w, r1, places)
  {
    if q1 != q {
      NothingRelayed(v, q, q1, r.link.server.log, q1.joined && Receives(places, w, q1.pos));
    }
  }

  lemma NothingRelayed(v: string, q: Player, q1: Player, log: seq<BattleMessage>, receives: bool)
    requires Relayed(v, q.link.client.log, q.processed, log, false) && FromUser(log, v) == []
    requires Taken(q, q1)
    ensures Relayed(v, q1.link.client.log, q1.processed, log, receives)
  {
  }

  lemma JoinKeeps(b: Battle, u: string)
    requires BattleInv(b) && u in b.players && !b.players[u].joined && CanTake(b.players[u])
    ensures BattleInv(b.(players := b.players[u := Joined(b, u)], places := b.places + [Some(u)]))
  {
    var p, p1, places1 := b.players[u], Joined(b, u), b.places + [Some(u)];
    var players1 := b.players[u := p1];
    assert PlayerInv(u, p);
    PassedIsPrefix(u, p);
    OnePlayerChanged(b.players, u, p1);
    SeatsKept(b.players, b.places, u, p1);
    assert Seated(players1, places1);
    TakenKeepsPairs(b.players, b.places, u, p1);
    forall v, w | v in b.players && w in b.players
      ensures PairInv(v, players1[v], w, players1[w], places1)
    {
      assert PairInv(v, players1[v], w, players1[w], b.places);
      OnePlaceMoreKeepsPair(v, players1[v], w, players1[w], b.places, u);
    }
  }

  /** u, who has nothing in the own buffer yet, takes the next place. */
  lemma OnePlaceMoreKeepsPair(v: string, q: Player, w: string, r: Player, places: seq<Option<string>>, u: string)
    requires PairInv(v, q, w, r, places)
    requires w == u ==> r.link.server.log == []
    ensures PairInv(v, q, w, r, places + [Some(u)])
  {
    if w != u {
      ReceivesAppend(places, u, w, q.pos);
    }
  }

  lemma ReceivesAppend(places: seq<Option<string>>, u: string, w: string, k: nat)
    requires w != u
    ensures Receives(places + [Some(u)], w, k) == Receives(places, w, k)
  {
    var more := places + [Some(u)];
    if Receives(places, w, k) {
      var i :| 0 <= i < |places| && i != k && places[i] == Some(w);
      assert more[i] == Some(w);
    }
    if Receives(more, w, k) {
      var i :| 0 <= i < |more| && i != k && more[i] == Some(w);
      assert places[i] == Some(w);
    }
  }

  /** Nobody gets a place by others leaving or by clearing the room. */
  lemma FewerPlacesKeepPairs(players: map<string, Player>, places: seq<Option<string>>, places1: seq<Option<string>>)
    requires PairsInv(players, places)
    requires forall i :: 0 <= i < |places1| && places1[i].Some? ==> i < |places| && places[i] == places1[i]
    ensures PairsInv(players, places1)
  {
    forall v, w | v in players && w in players
      ensures PairInv(v, players[v], w, players[w], places1)
    {
      assert PairInv(v, players[v], w, players[w], places);
      FewerReceive(places, places1, w, players[v].pos);
    }
  }

  lemma FewerReceive(places: seq<Option<string>>, places1: seq<Option<string>>, w: string, k: nat)
    requires forall i :: 0 <= i < |places1| && places1[i].Some? ==> i < |places| && places[i] == places1[i]
    ensures Receives(places1, w, k) ==> Receives(places, w, k)
  {
    if Receives(places1, w, k) {
      var i :| 0 <= i < |places1| && i != k && places1[i] == Some(w);
      assert places[i] == Some(w);
    }
  }

  lemma LeaveKeeps(b: Battle, u: string, clearing: nat)
    requires BattleInv(b) && u in b.players && b.players[u].joined
    ensures var p := b.players[u];
            BattleInv(Battle(b.players[u := p.(left := true)], Vacate(b.places, p.pos), clearing))
  {
    var p := b.players[u];
    var p1, places1 := p.(left := true), Vacate(b.places, p.pos);
    assert PlayerInv(u, p) && p.joined;
    OnePlayerChanged(b.players, u, p1);
    FewerPlacesKeepPairs(b.players, b.places, places1);
    var players1 := b.players[u := p1];
    forall v, w | v in players1 && w in players1
      ensures PairInv(v, players1[v], w, players1[w], places1)
    {
      assert PairInv(v, b.players[v], w, b.players[w], places1);
    }
    forall i | 0 <= i < |places1| && places1[i].Some?
      ensures places1[i].value in players1 && SeatedAt(players1[places1[i].value], i)
    {
      assert places1[i] == b.places[i];
    }
  }

  lemma NotInOwnBuffer(b: Battle, u: string)
    requires Seated(b.players, b.places) && u in b.players
    ensures !Receives(b.places, u, b.players[u].pos)
  {
  }

  lemma ForwardKeepsPlayer(b: Battle, u: string, v: string)
    requires CanStep(b, Forward(u)) && v in b.players && Seated(b.players, b.places)
    requires PlayerInv(u, b.players[u]) && PlayerInv(v, b.players[v])
    requires PairInv(u, b.players[u], v, b.players[v], b.places)
    ensures PlayerInv(v, ForwardedTo(u, b.players[u], v, b.players[v], b.places))
  {
    var p, q := b.players[u], b.players[v];
    if Receives(b.places, v, p.pos) {
      var i :| 0 <= i < |b.places| && i != p.pos && b.places[i] == Some(v);
      assert SeatedAt(b.players[b.places[i].value], i);
      PushKeepsPlayer(u, p, v, q, b.places);
    }
  }

  lemma ForwardIsForwardedTo(b: Battle, u: string)
    requires CanStep(b, Forward(u))
    ensures Next(b, Forward(u)) == b.(players := map v | v in b.players ::
                                      ForwardedTo(u, b.players[u], v, b.players[v], b.places))
  {
  }

  lemma ForwardKeepsPairs(players: map<string, Player>, places: seq<Option<string>>, u: string)
    requires PairsInv(players, places) && u in players && players[u].joined
    requires var p := players[u];
             && p.processed < |p.link.server.passed| && !Receives(places, u, p.pos)
             && p.link.server.passed <= p.link.client.log && Numbered(u, p.link.client.log)
    ensures PairsInv(map v | v in players :: ForwardedTo(u, players[u], v, players[v], places), places)
  {
    var p := players[u];
    var players1 := map v | v in players :: ForwardedTo(u, p, v, players[v], places);
    forall v, w | v in players1 && w in players1
      ensures PairInv(v, players1[v], w, players1[w], places)
    {
      assert PairInv(v, players[v], w, players[w], places);
      PairKept(u, p, v, players[v], w, players[w], places);
    }
  }

  lemma ForwardKeeps(b: Battle, u: string)
    requires BattleInv(b) && CanStep(b, Forward(u))
    ensures BattleInv(Next(b, Forward(u)))
  {
    var p, places := b.players[u], b.places;
    assert PlayerInv(u, p);
    PassedIsPrefix(u, p);
    NotInOwnBuffer(b, u);
    ForwardIsForwardedTo(b, u);
    ForwardKeepsPairs(b.players, places, u);
    var players1 := Next(b, Forward(u)).players;
    forall v | v in players1
      ensures PlayerInv(v, players1[v])
    {
      assert PlayerInv(v, b.players[v]) && PairInv(u, p, v, b.players[v], places);
      ForwardKeepsPlayer(b, u, v);
    }
    forall i | 0 <= i < |places| && places[i].Some?
      ensures places[i].value in players1 && SeatedAt(players1[places[i].value], i)
    {
      assert SeatedAt(b.players[places[i].value], i);
    }
  }

  /** Player w (state r) after u's next message was sent to the others. */
  function ForwardedTo(u: string, p: Player, w: string, r: Player, places: seq<Option<string>>): Player
    requires p.processed < |p.link.server.passed|
  {
    var r1 := if Receives(places, w, p.pos) then PushTo(r, p.link.server.passed[p.processed]) else r;
    if w == u then r1.(processed := p.processed + 1) else r1
  }

  lemma PushKeepsPlayer(u: string, p: Player, v: string, q: Player, places: seq<Option<string>>)
    requires PlayerInv(u, p) && PlayerInv(v, q) && PairInv(u, p, v, q, places)
    requires p.joined && p.processed < |p.link.server.passed| && Receives(places, v, p.pos)
    requires |q.link.server.log| + 2 + WINDOW < WORD32 && q.joined
    ensures PlayerInv(v, PushTo(q, p.link.server.passed[p.processed]))
  {
    PassedIsPrefix(u, p);
    var l, msg := q.link, p.link.server.passed[p.processed];
    RelayedNext(u, p.link.client.log, p.processed, l.server.log);
    FlowPush(l.server, l.client, l.down, l.up, q.accept, msg);
    FlowIgnoresReceiverLog(l.client, l.server, Push(l.server, msg), l.up, l.down, {v});
  }

  lemma PairKept(u: string, p: Player, v: string, q: Player, w: string, r: Player, places: seq<Option<string>>)
    requires p.joined && p.processed < |p.link.server.passed|
    requires p.link.server.passed <= p.link.client.log && Numbered(u, p.link.client.log)
    requires v == u ==> q == p
    requires !Receives(places, u, p.pos)
    requires PairInv(v, q, w, r, places)
    ensures PairInv(v, ForwardedTo(u, p, v, q, places), w, ForwardedTo(u, p, w, r, places), places)
  {
    var msg := p.link.server.passed[p.processed];
    assert msg.userId == u;
    assert ForwardedTo(u, p, v, q, places).link.client.log == q.link.client.log;
    if v == u {
      OwnPairKept(u, p, w, r, places);
    } else {
      OtherPairKept(v, q, w, r, ForwardedTo(u, p, w, r, places), places, msg);
    }
  }

  lemma OtherPairKept(v: string, q: Player, w: string, r: Player, r1: Player, places: seq<Option<string>>,
                      msg: BattleMessage)
    requires PairInv(v, q, w, r, places) && msg.userId != v
    requires r1.link.server.log == r.link.server.log || r1.link.server.log == r.link.server.log + [msg]
    ensures PairInv(v, q, w, r1, places)
  {
    RelayedOther(v, q.link.client.log, q.processed, r.link.server.log, q.joined && Receives(places, w, q.pos), msg);
  }

  lemma OwnPairKept(u: string, p: Player, w: string, r: Player, places: seq<Option<string>>)
    requires p.joined && p.processed < |p.link.server.passed|
    requires p.link.server.passed <= p.link.client.log && Numbered(u, p.link.client.log)
    requires !Receives(places, u, p.pos)
    requires PairInv(u, p, w, r, places)
    ensures PairInv(u, ForwardedTo(u, p, u, p, places), w, ForwardedTo(u, p, w, r, places), places)
  {
    var p1, r1 := ForwardedTo(u, p, u, p, places), ForwardedTo(u, p, w, r, places);
    assert p1 == p.(processed := p.processed + 1);
    var (sent, log) := (p.link.client.log, r.link.server.log);
    if Receives(places, w, p.pos) {
      assert r1.link.server.log == log + [sent[p.processed]];
      RelayedNext(u, sent, p.processed, log);
    } else {
      assert r1.link.server.log == log;
      RelayedNotReceiving(u, sent, p.processed, log);
    }
  }

  /** A message of u that this log does not receive. */
  lemma RelayedNotReceiving(u: string, sent: seq<BattleMessage>, processed: nat, log: seq<BattleMessage>)
    requires Relayed(u, sent, processed, log, false) && processed < |sent|
    ensures Relayed(u, sent, processed + 1, log, false)
  {
  }

  lemma NextKeepsInv(b: Battle, step: BattleStep)
    requires BattleInv(b) && CanStep(b, step)
    ensures BattleInv(Next(b, step))
  {
    match step
    case Network(u, s) => NetworkKeeps(b, u, s);
    case Generate(u, body) => GenerateKeeps(b, u, BattleMessage(u, |b.players[u].link.client.log| + 1, body));
    case FailJoin(u) => FailJoinKeeps(b, u);
    case Join(u) => JoinKeeps(b, u);
    case Forward(u) => ForwardKeeps(b, u);
    case Stop(u) => StopKeeps(b, u);
    case Leave(u) => LeaveKeeps(b, u, Next(b, step).clearing);
    case Clear => FewerPlacesKeepPairs(b.players, b.places, []);
  }

  // ---- Whole battles ------------------------------------------------------------------------

  function RunBattle(b: Battle, steps: seq<BattleStep>): Option<Battle>
    decreases |steps|
  {
    if steps == [] then Some(b)
    else if !CanStep(b, steps[0]) then None
    else RunBattle(Next(b, steps[0]), steps[1..])
  }

  lemma {:induction false} RunBattleKeepsInv(b: Battle, steps: seq<BattleStep>)
    requires BattleInv(b) && RunBattle(b, steps).Some?
    ensures BattleInv(RunBattle(b, steps).value)
    decreases |steps|
  {
    if steps != [] {
      NextKeepsInv(b, steps[0]);
      RunBattleKeepsInv(Next(b, steps[0]), steps[1..]);
    }
  }

  lemma {:induction false} FromAccepted(log: seq<BattleMessage>, n: nat, accept: set<string>, user: string)
    requires n <= |log|
    ensures FromUser(Accepted(log, n, accept), user) == if user in accept then FromUser(log[..n], user) else []
  {
    if n > 0 {
      var last := log[n - 1];
      FromAccepted(log, n - 1, accept, user);
      assert log[..n] == log[..n - 1] + [last];
      FromUserConcat(log[..n - 1], [last], user);
      FromUserOne(last, user);
      FromUserConcat(Accepted(log, n - 1, accept), if last.userId in accept then [last] else [], user);
    }
  }

  /** part is a run of neighbouring elements of whole. */
  predicate IsStretch(part: seq<BattleMessage>, whole: seq<BattleMessage>) {
    exists end :: |part| <= end <= |whole| && part == whole[..end][end - |part|..]
  }

  /** End to end, over any run: what v's filter let through of u's messages is, in order and once each,
      a stretch of the messages u's client generated, and the beginning of the stretch of them that the
      room pushed into v's buffer, whatever else that buffer holds. */
  lemma DeliveredEndToEnd(b0: Battle, steps: seq<BattleStep>, u: string, v: string)
    requires Start(b0) && RunBattle(b0, steps).Some?
    requires var b := RunBattle(b0, steps).value; u in b.players && v in b.players && u in b.players[v].accept
    ensures var b := RunBattle(b0, steps).value;
            var generated, pushed, passed := b.players[u].link.client.log,
              FromUser(b.players[v].link.server.log, u), FromUser(b.players[v].link.client.passed, u);
            passed <= pushed && IsStretch(pushed, generated)
  {
    StartInv(b0);
    RunBattleKeepsInv(b0, steps);
    var b := RunBattle(b0, steps).value;
    assert PairInv(u, b.players[u], v, b.players[v], b.places) && PlayerInv(v, b.players[v]);
    DeliveredToPlayer(u, b.players[u], v, b.players[v], b.places);
  }

  lemma DeliveredToPlayer(u: string, p: Player, v: string, q: Player, places: seq<Option<string>>)
    requires PairInv(u, p, v, q, places) && PlayerInv(v, q) && u in q.accept
    ensures FromUser(q.link.client.passed, u) <= FromUser(q.link.server.log, u)
    ensures IsStretch(FromUser(q.link.server.log, u), p.link.client.log)
  {
    PassedOfUser(v, q, u);
    RelayedIsStretch(u, p.link.client.log, p.processed, q.link.server.log);
  }

  lemma PassedOfUser(v: string, q: Player, u: string)
    requires PlayerInv(v, q)
    ensures if u in q.accept then FromUser(q.link.client.passed, u) <= FromUser(q.link.server.log, u)
            else FromUser(q.link.client.passed, u) == []
  {
    var (log, n) := (q.link.server.log, q.link.client.frontier);
    assert q.link.client.passed == Accepted(log, n, q.accept);
    FromAccepted(log, n, q.accept, u);
    FromUserPrefix(log, n, u);
  }

  lemma FromUserPrefix(log: seq<BattleMessage>, n: nat, u: string)
    requires n <= |log|
    ensures FromUser(log[..n], u) <= FromUser(log, u)
  {
    assert log == log[..n] + log[n..];
    FromUserConcat(log[..n], log[n..], u);
  }

  lemma RelayedIsStretch(u: string, sent: seq<BattleMessage>, processed: nat, log: seq<BattleMessage>)
    requires Relayed(u, sent, processed, log, false)
    ensures IsStretch(FromUser(log, u), sent)
  {
    var (f, h) := (FromUser(log, u), LastNumber(log, u));
    assert f == sent[..h][h - |f|..];
  }

  /** A client never sees a message of a user it does not list. */
  lemma OnlyListedUsers(b0: Battle, steps: seq<BattleStep>, u: string, v: string)
    requires Start(b0) && RunBattle(b0, steps).Some?
    requires v in RunBattle(b0, steps).value.players
    ensures var b := RunBattle(b0, steps).value;
            u !in b.players[v].accept ==> FromUser(b.players[v].link.client.passed, u) == []
  {
    StartInv(b0);
    RunBattleKeepsInv(b0, steps);
    var b := RunBattle(b0, steps).value;
    assert PlayerInv(v, b.players[v]);
    PassedOfUser(v, b.players[v], u);
  }
}
