/** Over both hops everything arrives: from any state of a battle that can be reached, without new messages
    and with lossless round trips on both connections, what a player has generated passes another's filter. */
module Draining {
  import opened Wrappers
  import opened Bytes
  import opened BattleBuffers
  import opened ReliableLink
  import opened TwoHop

  // ---- A connection seen from its server end ------------------------------------------------

  function Flip(l: Link): Link {
    Link(l.server, l.client, l.down, l.up)
  }

  function FlipStep(step: LinkStep): LinkStep {
    match step
    case PushStep(side, msg) => PushStep(Other(side), msg)
    case SendStep(side) => SendStep(Other(side))
    case ReceiveStep(side, pkt) => ReceiveStep(Other(side), pkt)
    case FilterStep(side) => FilterStep(Other(side))
  }

  function FlipSteps(steps: seq<LinkStep>): seq<LinkStep> {
    if steps == [] then [] else [FlipStep(steps[0])] + FlipSteps(steps[1..])
  }

  lemma StepFlips(l: Link, step: LinkStep)
    ensures Enabled(l, step) <==> Enabled(Flip(l), FlipStep(step))
    ensures Enabled(l, step) ==> Apply(Flip(l), FlipStep(step)) == Flip(Apply(l, step))
  {
  }

  lemma {:induction false} RunFlips(l: Link, steps: seq<LinkStep>)
    requires Run(l, steps).Some?
    ensures Run(Flip(l), FlipSteps(steps)) == Some(Flip(Run(l, steps).value))
    decreases |steps|
  {
    if steps != [] {
      StepFlips(l, steps[0]);
      RunFlips(Apply(l, steps[0]), steps[1..]);
      assert FlipSteps(steps)[1..] == FlipSteps(steps[1..]);
    }
  }

  /** Only a push makes a log longer. */
  lemma {:induction false} NoPush(l: Link, steps: seq<LinkStep>)
    requires Run(l, steps).Some?
    ensures var l1 := Run(l, steps).value;
            && |l.client.log| <= |l1.client.log| && |l.server.log| <= |l1.server.log|
            && (|l.client.log| == |l1.client.log| && |l.server.log| == |l1.server.log| ==>
                  forall step :: step in steps ==> !step.PushStep?)
    decreases |steps|
  {
    if steps != [] {
      NoPush(Apply(l, steps[0]), steps[1..]);
      assert forall step :: step in steps ==> step == steps[0] || step in steps[1..];
    }
  }

  // ---- Runs that only deliver --------------------------------------------------------------

  lemma {:induction false} RunBattleConcat(b: Battle, a: seq<BattleStep>, c: seq<BattleStep>)
    requires RunBattle(b, a).Some?
    ensures RunBattle(b, a + c) == RunBattle(RunBattle(b, a).value, c)
    decreases |a|
  {
    if a == [] {
      assert a + c == c;
    } else {
      assert (a + c)[1..] == a[1..] + c;
      RunBattleConcat(Next(b, a[0]), a[1..], c);
    }
  }

  /** Packets and the server's loops: no message is generated, and nobody comes or goes. */
  predicate OnlyDelivers(steps: seq<BattleStep>) {
    forall step :: step in steps ==> step.Network? || step.Forward?
  }

  /** Some run that only delivers leads from b to b1. */
  ghost predicate Delivers(b: Battle, b1: Battle) {
    exists steps :: OnlyDelivers(steps) && RunBattle(b, steps) == Some(b1)
  }

  lemma DeliversSelf(b: Battle)
    ensures Delivers(b, b)
  {
    assert RunBattle(b, []) == Some(b);
  }

  lemma DeliversStep(b: Battle, step: BattleStep)
    requires (step.Network? || step.Forward?) && CanStep(b, step)
    ensures Delivers(b, Next(b, step))
  {
    assert [step][1..] == [];
    assert RunBattle(b, [step]) == Some(Next(b, step));
  }

  lemma DeliversTransitively(b: Battle, m: Battle, b1: Battle)
    requires Delivers(b, m) && Delivers(m, b1)
    ensures Delivers(b, b1)
  {
    var first :| OnlyDelivers(first) && RunBattle(b, first) == Some(m);
    var last :| OnlyDelivers(last) && RunBattle(m, last) == Some(b1);
    RunBattleConcat(b, first, last);
    assert OnlyDelivers(first + last);
  }

  lemma DeliversKeepsInv(b: Battle, b1: Battle)
    requires BattleInv(b) && Delivers(b, b1)
    ensures BattleInv(b1)
  {
    var steps :| OnlyDelivers(steps) && RunBattle(b, steps) == Some(b1);
    RunBattleKeepsInv(b, steps);
  }

  function WithLink(b: Battle, u: string, l: Link): Battle
    requires u in b.players
  {
    b.(players := b.players[u := b.players[u].(link := l)])
  }

  lemma LastLink(b: Battle, u: string, l1: Link, l2: Link)
    requires u in b.players
    ensures WithLink(WithLink(b, u, l1), u, l2) == WithLink(b, u, l2)
  {
    assert b.players[u := b.players[u].(link := l1)][u := b.players[u].(link := l2)] ==
           b.players[u := b.players[u].(link := l2)];
  }

  lemma {:induction false} ConnectionRuns(b: Battle, u: string, steps: seq<LinkStep>)
    requires u in b.players && Run(b.players[u].link, steps).Some?
    requires forall step :: step in steps ==> !step.PushStep?
    ensures Delivers(b, WithLink(b, u, Run(b.players[u].link, steps).value))
    decreases |steps|
  {
    if steps == [] {
      assert WithLink(b, u, b.players[u].link) == b;
      DeliversSelf(b);
    } else {
      var l1 := Apply(b.players[u].link, steps[0]);
      assert steps[0] in steps;
      var next := WithLink(b, u, l1);
      DeliversStep(b, Network(u, steps[0]));
      ConnectionRuns(next, u, steps[1..]);
      LastLink(b, u, l1, Run(l1, steps[1..]).value);
      DeliversTransitively(b, next, WithLink(b, u, Run(l1, steps[1..]).value));
    }
  }

  /** The round trips that drain a connection from its client end. */
  function Trips(l: Link): int {
    (|l.client.log| + 1 - l.client.begin + 49) / 50
  }

  /** trips are the states of round trips that drain a connection in state l from its client end. */
  predicate DrainedBy(l: Link, trips: seq<Link>) {
    trips != [] && trips[0] == l && RoundTripsThrough(trips) && |trips| - 1 == Trips(l)
  }

  /** The client's messages reach the server. */
  lemma UpDrained(b: Battle, u: string) returns (l1: Link, trips: seq<Link>)
    requires BattleInv(b) && u in b.players && Quiet(b.players[u].link)
    ensures DrainedBy(b.players[u].link, trips) && l1 == trips[|trips| - 1]
    ensures Delivers(b, WithLink(b, u, l1))
    ensures l1.client.log == b.players[u].link.client.log && l1.server.log == b.players[u].link.server.log
    ensures l1.server.passed == l1.client.log
  {
    var p := b.players[u];
    assert PlayerInv(u, p);
    trips := DrainedAfter(p.link, {u}, p.accept);
    l1 := trips[|trips| - 1];
    var run :| Run(p.link, run) == Some(l1);
    NoPush(p.link, run);
    ConnectionRuns(b, u, run);
    AcceptedAll(u, l1.client.log, |l1.client.log|);
    assert l1.client.log[..|l1.client.log|] == l1.client.log;
  }

  /** What the server pushed reaches the client's filter. */
  lemma DownDrained(b: Battle, v: string) returns (l1: Link, trips: seq<Link>)
    requires BattleInv(b) && v in b.players && Quiet(Flip(b.players[v].link))
    ensures DrainedBy(Flip(b.players[v].link), trips) && l1 == Flip(trips[|trips| - 1])
    ensures Delivers(b, WithLink(b, v, l1))
    ensures var q := b.players[v];
            && l1.client.log == q.link.client.log && l1.server.log == q.link.server.log
            && l1.client.passed == Accepted(q.link.server.log, |q.link.server.log|, q.accept)
  {
    var q := b.players[v];
    assert PlayerInv(v, q);
    trips := DrainedAfter(Flip(q.link), q.accept, {v});
    l1 := Flip(trips[|trips| - 1]);
    var run :| Run(Flip(q.link), run) == Some(trips[|trips| - 1]);
    RunFlips(Flip(q.link), run);
    assert Flip(Flip(q.link)) == q.link;
    NoPush(q.link, FlipSteps(run));
    ConnectionRuns(b, v, FlipSteps(run));
  }

  // ---- The server forwards what it has ------------------------------------------------------

  /** Every send buffer has numbers left for n more messages. */
  predicate HasRoom(b: Battle, n: int) {
    forall w :: w in b.players ==> |b.players[w].link.server.log| + n + 1 + WINDOW < WORD32
  }

  /** Player q got msgs pushed. */
  function Pushed(q: Player, msgs: seq<BattleMessage>): Player {
    q.(link := q.link.(server := q.link.server.(log := q.link.server.log + msgs)))
  }

  /** u (p, then p1) had n messages forwarded to v (q, then q1). */
  predicate ForwardedBy(p: Player, q: Player, n: nat, p1: Player, q1: Player) {
    && p.processed + n <= |p.link.server.passed|
    && p1 == p.(processed := p.processed + n)
    && q1 == Pushed(q, p.link.server.passed[p.processed..p.processed + n])
  }

  lemma ForwardedTwice(p: Player, q: Player, p1: Player, q1: Player, p2: Player, q2: Player, n: nat)
    requires n >= 1 && ForwardedBy(p, q, 1, p1, q1) && ForwardedBy(p1, q1, n - 1, p2, q2)
    ensures ForwardedBy(p, q, n, p2, q2)
  {
    var (msgs, k) := (p.link.server.passed, p.processed);
    assert msgs[k..k + n] == msgs[k..k + 1] + msgs[k + 1..k + n];
    assert (q.link.server.log + msgs[k..k + 1]) + msgs[k + 1..k + n] == q.link.server.log + msgs[k..k + n];
  }

  /** u's loop can forward n messages, and v gets them. */
  predicate CanForward(b: Battle, u: string, v: string, n: nat) {
    && u in b.players && v in b.players && u != v && HasRoom(b, n)
    && var p := b.players[u];
       && p.joined && !p.stopped && p.processed + n <= |p.link.server.passed| && Receives(b.places, v, p.pos)
  }

  lemma {:induction false} AllForwarded(b: Battle, u: string, v: string, n: nat) returns (b1: Battle)
    requires BattleInv(b) && CanForward(b, u, v, n)
    ensures BattleInv(b1) && Delivers(b, b1) && u in b1.players && v in b1.players
    ensures ForwardedBy(b.players[u], b.players[v], n, b1.players[u], b1.players[v])
    decreases n
  {
    if n == 0 {
      NothingForwarded(b.players[u], b.players[v]);
      DeliversSelf(b);
      b1 := b;
    } else {
      var next := OneForwarded(b, u, v, n);
      b1 := AllForwarded(next, u, v, n - 1);
      DeliversTransitively(b, next, b1);
      ForwardedTwice(b.players[u], b.players[v], next.players[u], next.players[v], b1.players[u], b1.players[v], n);
    }
  }

  lemma NothingForwarded(p: Player, q: Player)
    requires p.processed <= |p.link.server.passed|
    ensures ForwardedBy(p, q, 0, p, q)
  {
    assert q.link.server.log + [] == q.link.server.log;
  }

  lemma OneForwarded(b: Battle, u: string, v: string, n: nat) returns (next: Battle)
    requires BattleInv(b) && n >= 1 && CanForward(b, u, v, n)
    ensures Delivers(b, next) && BattleInv(next) && CanForward(next, u, v, n - 1)
    ensures ForwardedBy(b.players[u], b.players[v], 1, next.players[u], next.players[v])
  {
    ForwardStep(b, u, v, n);
    next := Next(b, Forward(u));
    ForwardKeeps(b, u);
    DeliversStep(b, Forward(u));
  }

  lemma ForwardStep(b: Battle, u: string, v: string, n: nat)
    requires Seated(b.players, b.places) && n >= 1 && CanForward(b, u, v, n)
    ensures CanStep(b, Forward(u))
    ensures var b1 := Next(b, Forward(u));
            && CanForward(b1, u, v, n - 1)
            && ForwardedBy(b.players[u], b.players[v], 1, b1.players[u], b1.players[v])
  {
    ForwardIsForwardedTo(b, u);
    var b1 := Next(b, Forward(u));
    NotInOwnBuffer(b, u);
    OthersForwardedTo(b, b1, u, v, n);
    var p := b.players[u];
    assert b1.players[u] == p.(processed := p.processed + 1);
    OneIsForwarded(p, b.players[v], b1.players[u], b1.players[v]);
  }

  lemma OneIsForwarded(p: Player, q: Player, p1: Player, q1: Player)
    requires p.processed < |p.link.server.passed|
    requires p1 == p.(processed := p.processed + 1) && q1 == PushTo(q, p.link.server.passed[p.processed])
    ensures ForwardedBy(p, q, 1, p1, q1)
  {
    assert p.link.server.passed[p.processed..p.processed + 1] == [p.link.server.passed[p.processed]];
  }

  lemma OthersForwardedTo(b: Battle, b1: Battle, u: string, v: string, n: nat)
    requires n >= 1 && CanForward(b, u, v, n) && !Receives(b.places, u, b.players[u].pos)
    requires b1 == b.(players := map w | w in b.players ::
                                ForwardedTo(u, b.players[u], w, b.players[w], b.places))
    ensures CanForward(b1, u, v, n - 1)
  {
  }

  // ---- Both hops ----------------------------------------------------------------------------

  /** The server's end is between packets, and what is outstanding fits its ring with n messages more. */
  predicate QuietDown(l: Link, n: nat) {
    && l.client.pending == [] && l.server.pending == []
    && Sendable(|l.server.log| + n, l.server.begin)
    && l.server.ack <= |l.client.log| && Sendable(|l.client.log|, l.server.ack + 1)
  }

  lemma QuietWhenPushed(q: Player, msgs: seq<BattleMessage>)
    requires QuietDown(q.link, |msgs|)
    ensures Quiet(Flip(Pushed(q, msgs).link))
  {
  }

  /** What the server has of u is forwarded to v and passes v's filter. */
  lemma ForwardedAndDrained(b: Battle, u: string, v: string, n: nat) 
    returns (b1: Battle, down: seq<Link>, log: seq<BattleMessage>)
    requires BattleInv(b) && CanForward(b, u, v, n) && QuietDown(b.players[v].link, n)
    ensures Delivers(b, b1) && u in b1.players && v in b1.players
    ensures down != [] && DrainedBy(down[0], down)
    ensures b1.players[v].link == Flip(down[|down| - 1]) && b1.players[u].link == b.players[u].link
    ensures var (p, q) := (b.players[u], b.players[v]);
            log == q.link.server.log + p.link.server.passed[p.processed..p.processed + n]
            && b1.players[v].link.client.passed == Accepted(log, |log|, q.accept)
  {
    var b2 := AllForwarded(b, u, v, n);
    var p := b.players[u];
    QuietWhenPushed(b.players[v], p.link.server.passed[p.processed..p.processed + n]);
    var l1;
    l1, down := DownDrained(b2, v);
    b1 := WithLink(b2, v, l1);
    log := l1.server.log;
    DeliversTransitively(b, b2, b1);
  }

  /** How many messages of u its loop on the server has not taken yet, sent or not. */
  function Untaken(b: Battle, u: string): int
    requires u in b.players
  {
    |b.players[u].link.client.log| - b.players[u].processed
  }

  /** u is in the room and v, who lists u, in another place of it; both connections are between packets, and
      the server's buffers have room for what u's loop has not taken yet. */
  predicate CanDrain(b: Battle, u: string, v: string) {
    && u in b.players && v in b.players && u != v && u in b.players[v].accept
    && b.players[u].joined && !b.players[u].stopped && Receives(b.places, v, b.players[u].pos)
    && Untaken(b, u) >= 0 && HasRoom(b, Untaken(b, u))
    && Quiet(b.players[u].link) && QuietDown(b.players[v].link, Untaken(b, u))
  }

  /** Everything arrives: in every state that a battle can reach, some run without new messages takes up round
      trips that drain u's connection, forwards what the server has, and takes down round trips that drain
      v's; then v's filter has passed all of u that was in v's buffer or that u's loop had not taken. */
  lemma EverythingArrives(b: Battle, u: string, v: string) returns (b1: Battle, up: seq<Link>, down: seq<Link>)
    requires BattleInv(b) && CanDrain(b, u, v)
    ensures Delivers(b, b1) && u in b1.players && v in b1.players
    ensures DrainedBy(b.players[u].link, up) && b1.players[u].link == up[|up| - 1]
    ensures down != [] && DrainedBy(down[0], down) && b1.players[v].link == Flip(down[|down| - 1])
    ensures FromUser(b1.players[v].link.client.passed, u) ==
            FromUser(b.players[v].link.server.log, u) + b.players[u].link.client.log[b.players[u].processed..]
  {
    var l1;
    l1, up := UpDrained(b, u);
    var b2 := WithLink(b, u, l1);
    DeliversKeepsInv(b, b2);
    UpLeavesRoom(b, u, v, l1);
    var log;
    b1, down, log := ForwardedAndDrained(b2, u, v, Untaken(b, u));
    var k := b.players[u].processed;
    assert log == b.players[v].link.server.log + l1.server.passed[k..k + Untaken(b, u)];
    DeliversTransitively(b, b2, b1);
    OwnMessages(b, u);
    RestPassed(l1.server.passed, k, b.players[v].link.server.log, log, b.players[v].accept, u);
  }

  lemma UpLeavesRoom(b: Battle, u: string, v: string, l1: Link)
    requires CanDrain(b, u, v)
    requires l1.client.log == b.players[u].link.client.log && l1.server.log == b.players[u].link.server.log
    requires l1.server.passed == l1.client.log
    ensures var b2 := WithLink(b, u, l1);
            && CanForward(b2, u, v, Untaken(b, u)) && QuietDown(b2.players[v].link, Untaken(b, u))
            && b2.players[u] == b.players[u].(link := l1) && b2.players[v] == b.players[v]
  {
  }

  lemma OwnMessages(b: Battle, u: string)
    requires BattleInv(b) && u in b.players
    ensures forall m :: m in b.players[u].link.client.log ==> m.userId == u
  {
    assert PlayerInv(u, b.players[u]);
  }

  /** That is the end of what u has generated: from where v's buffer started to get u's messages, none is
      missing. */
  lemma DueIsTheRest(b: Battle, u: string, v: string)
    requires BattleInv(b) && CanDrain(b, u, v)
    ensures var (p, f) := (b.players[u], FromUser(b.players[v].link.server.log, u));
            |f| <= p.processed && f + p.link.client.log[p.processed..] == p.link.client.log[p.processed - |f|..]
  {
    var (p, q) := (b.players[u], b.players[v]);
    assert PairInv(u, p, v, q, b.places);
    RelayedUpToDate(u, p.link.client.log, p.processed, q.link.server.log);
  }

  lemma RelayedUpToDate(u: string, sent: seq<BattleMessage>, processed: nat, log: seq<BattleMessage>)
    requires Relayed(u, sent, processed, log, true)
    ensures var f := FromUser(log, u); |f| <= processed <= |sent| && f + sent[processed..] == sent[processed - |f|..]
  {
    var f := FromUser(log, u);
    if f != [] {
      assert f == sent[processed - |f|..processed];
    }
  }

  // ---- Since the other joined ---------------------------------------------------------------

  /** u is in the room and v in another place of it. */
  predicate Hears(b: Battle, u: string, v: string) {
    u in b.players && v in b.players && b.players[u].joined && b.players[v].joined && u != v
    && Receives(b.places, v, b.players[u].pos)
  }

  /** Between the states (p, q) and (p1, q1) of u and v, what u's loop took went to v. */
  predicate Heard(u: string, p: Player, q: Player, p1: Player, q1: Player) {
    && p1.joined && p1.pos == p.pos && q1.joined
    && p.processed <= p1.processed <= |p1.link.client.log| && p.link.client.log <= p1.link.client.log
    && FromUser(q1.link.server.log, u) ==
       FromUser(q.link.server.log, u) + p1.link.client.log[p.processed..p1.processed]
  }

  lemma HeardTwice(u: string, p: Player, q: Player, p1: Player, q1: Player, p2: Player, q2: Player)
    requires Heard(u, p, q, p1, q1) && Heard(u, p1, q1, p2, q2)
    ensures Heard(u, p, q, p2, q2)
  {
    var (log, i, j, k) := (p2.link.client.log, p.processed, p1.processed, p2.processed);
    assert p1.link.client.log[i..j] == log[i..j];
    assert log[i..j] + log[j..k] == log[i..k];
    var f := FromUser(q.link.server.log, u);
    assert (f + log[i..j]) + log[j..k] == f + (log[i..j] + log[j..k]);
  }

  /** What happens to others, or to who is in the room, is nothing new for u and v. */
  lemma NothingNew(u: string, p: Player, q: Player, p1: Player, q1: Player)
    requires p.joined && q.joined && p1.joined && p1.pos == p.pos && q1.joined
    requires p.processed == p1.processed <= |p.link.client.log| && p.link.client.log <= p1.link.client.log
    requires FromUser(q1.link.server.log, u) == FromUser(q.link.server.log, u)
    ensures Heard(u, p, q, p1, q1)
  {
    assert FromUser(q.link.server.log, u) + [] == FromUser(q.link.server.log, u);
  }

  lemma StepIsHeard(b: Battle, step: BattleStep, u: string, v: string)
    requires BattleInv(b) && CanStep(b, step) && Hears(b, u, v)
    ensures u in Next(b, step).players && v in Next(b, step).players
    ensures Heard(u, b.players[u], b.players[v], Next(b, step).players[u], Next(b, step).players[v])
  {
    var (p, q) := (b.players[u], b.players[v]);
    assert PlayerInv(u, p);
    PassedIsPrefix(u, p);
    if step.Forward? {
      ForwardIsHeard(b, step.user, u, v);
    } else {
      QuietStep(b, step, u, v);
      NothingNew(u, p, q, Next(b, step).players[u], Next(b, step).players[v]);
    }
  }

  lemma QuietStep(b: Battle, step: BattleStep, u: string, v: string)
    requires CanStep(b, step) && Hears(b, u, v) && !step.Forward?
    ensures u in Next(b, step).players && v in Next(b, step).players
    ensures var (p, p1, q, q1) := (b.players[u], Next(b, step).players[u], b.players[v], Next(b, step).players[v]);
            && p1.joined && q1.joined && (p1.pos, p1.processed) == (p.pos, p.processed)
            && p.link.client.log <= p1.link.client.log && q1.link.server.log == q.link.server.log
  {
  }

  lemma ForwardIsHeard(b: Battle, w: string, u: string, v: string)
    requires BattleInv(b) && CanStep(b, Forward(w)) && Hears(b, u, v)
    ensures var b1 := Next(b, Forward(w));
            u in b1.players && v in b1.players
            && Heard(u, b.players[u], b.players[v], b1.players[u], b1.players[v])
  {
    var r := b.players[w];
    assert PlayerInv(w, r) && PlayerInv(u, b.players[u]);
    PassedIsPrefix(w, r);
    PassedIsPrefix(u, b.players[u]);
    NotInOwnBuffer(b, w);
    ForwardIsForwardedTo(b, w);
    PassedOn(w, r, u, b.players[u], v, b.players[v], b.places);
  }

  lemma PassedOn(w: string, r: Player, u: string, p: Player, v: string, q: Player, places: seq<Option<string>>)
    requires r.processed < |r.link.server.passed| && r.link.server.passed <= r.link.client.log
    requires Numbered(w, r.link.client.log) && p.joined && q.joined && p.processed <= |p.link.client.log|
    requires u != v && (w == u ==> r == p) && Receives(places, v, p.pos)
    ensures Heard(u, p, q, ForwardedTo(w, r, u, p, places), ForwardedTo(w, r, v, q, places))
  {
    var msg := r.link.server.passed[r.processed];
    assert msg == r.link.client.log[r.processed] && msg.userId == w;
    OneMoreFromUser(q.link.server.log, msg, u);
    var (p1, q1) := (ForwardedTo(w, r, u, p, places), ForwardedTo(w, r, v, q, places));
    if w == u {
      TakenIsHeard(u, p, q, p1, q1, msg);
    } else {
      NothingNew(u, p, q, p1, q1);
    }
  }

  lemma OneMoreFromUser(log: seq<BattleMessage>, msg: BattleMessage, u: string)
    ensures FromUser(log + [msg], u) == FromUser(log, u) + if msg.userId == u then [msg] else []
    ensures msg.userId != u ==> FromUser(log + [msg], u) == FromUser(log, u)
  {
    FromUserConcat(log, [msg], u);
    FromUserOne(msg, u);
  }

  lemma TakenIsHeard(u: string, p: Player, q: Player, p1: Player, q1: Player, msg: BattleMessage)
    requires p.joined && q.joined && (p1.joined, p1.pos, q1.joined) == (true, p.pos, true)
    requires p.processed < |p.link.client.log| && p.link.client.log[p.processed] == msg
    requires p1.link.client.log == p.link.client.log && p1.processed == p.processed + 1
    requires FromUser(q1.link.server.log, u) == FromUser(q.link.server.log, u) + [msg]
    ensures Heard(u, p, q, p1, q1)
  {
    assert p1.link.client.log[p.processed..p1.processed] == [msg];
  }

  /** Who joined before does not get a place later. */
  lemma NoPlaceLater(b: Battle, step: BattleStep, v: string, k: nat)
    requires CanStep(b, step) && v in b.players && b.players[v].joined
    requires Receives(Next(b, step).places, v, k)
    ensures Receives(b.places, v, k)
  {
    if step.Join? {
      ReceivesAppend(b.places, step.user, v, k);
    } else {
      FewerReceive(b.places, Next(b, step).places, v, k);
    }
  }

  lemma StaysJoined(b: Battle, step: BattleStep, v: string)
    requires CanStep(b, step) && v in b.players && b.players[v].joined
    ensures v in Next(b, step).players
    ensures Next(b, step).players[v].joined && Next(b, step).players[v].pos == b.players[v].pos
  {
  }

  lemma {:induction false} NoPlaceInRun(b: Battle, steps: seq<BattleStep>, v: string, k: nat)
    requires RunBattle(b, steps).Some? && v in b.players && b.players[v].joined
    requires Receives(RunBattle(b, steps).value.places, v, k)
    ensures Receives(b.places, v, k)
    decreases |steps|
  {
    if steps != [] {
      StaysJoined(b, steps[0], v);
      NoPlaceInRun(Next(b, steps[0]), steps[1..], v, k);
      NoPlaceLater(b, steps[0], v, k);
    }
  }

  lemma {:induction false} JoinedInRun(b: Battle, steps: seq<BattleStep>, b1: Battle, u: string)
    requires RunBattle(b, steps) == Some(b1) && u in b.players && b.players[u].joined
    ensures u in b1.players && b1.players[u].joined && b1.players[u].pos == b.players[u].pos
    decreases |steps|
  {
    if steps != [] {
      StaysJoined(b, steps[0], u);
      JoinedInRun(Next(b, steps[0]), steps[1..], b1, u);
    }
  }

  /** As long as v is in the room with u, nothing that u's loop takes is kept from v. */
  lemma {:induction false} AllIsHeard(b: Battle, steps: seq<BattleStep>, b1: Battle, u: string, v: string)
    requires BattleInv(b) && Hears(b, u, v) && RunBattle(b, steps) == Some(b1)
    requires Receives(b1.places, v, b.players[u].pos)
    ensures u in b1.players && v in b1.players
    ensures Heard(u, b.players[u], b.players[v], b1.players[u], b1.players[v])
    decreases |steps|
  {
    var (p, q) := (b.players[u], b.players[v]);
    if steps == [] {
      assert PlayerInv(u, p);
      PassedIsPrefix(u, p);
      NothingNew(u, p, q, p, q);
    } else {
      var next := Next(b, steps[0]);
      NextKeepsInv(b, steps[0]);
      StepIsHeard(b, steps[0], u, v);
      NoPlaceInRun(next, steps[1..], v, p.pos);
      AllIsHeard(next, steps[1..], b1, u, v);
      HeardTwice(u, p, q, next.players[u], next.players[v], b1.players[u], b1.players[v]);
    }
  }

  /** Whatever happened since v was in the room with u (state b0), while both are still there: after the
      round trips, v's filter has passed all that u's loop had not taken in b0 or u generated since, behind
      what v's buffer held of u in b0. */
  lemma ArrivesSince(b0: Battle, steps: seq<BattleStep>, b: Battle, u: string, v: string)
    returns (b1: Battle, up: seq<Link>, down: seq<Link>)
    requires BattleInv(b0) && Hears(b0, u, v) && RunBattle(b0, steps) == Some(b) && CanDrain(b, u, v)
    ensures Delivers(b, b1) && u in b1.players && v in b1.players
    ensures DrainedBy(b.players[u].link, up) && b1.players[u].link == up[|up| - 1]
    ensures down != [] && DrainedBy(down[0], down) && b1.players[v].link == Flip(down[|down| - 1])
    ensures b0.players[u].processed <= |b.players[u].link.client.log|
    ensures FromUser(b1.players[v].link.client.passed, u) ==
            FromUser(b0.players[v].link.server.log, u) + b.players[u].link.client.log[b0.players[u].processed..]
  {
    RunBattleKeepsInv(b0, steps);
    JoinedInRun(b0, steps, b, u);
    AllIsHeard(b0, steps, b, u, v);
    b1, up, down := EverythingArrives(b, u, v);
    RestIsHeard(u, b0.players[u], b0.players[v], b.players[u], b.players[v]);
  }

  lemma RestIsHeard(u: string, p: Player, q: Player, p1: Player, q1: Player)
    requires Heard(u, p, q, p1, q1)
    ensures FromUser(q1.link.server.log, u) + p1.link.client.log[p1.processed..] ==
            FromUser(q.link.server.log, u) + p1.link.client.log[p.processed..]
  {
    var (log, i, j) := (p1.link.client.log, p.processed, p1.processed);
    assert log[i..j] + log[j..] == log[i..];
    var f := FromUser(q.link.server.log, u);
    assert (f + log[i..j]) + log[j..] == f + (log[i..j] + log[j..]);
  }

  /** When v joins a room that u is in, v's buffer is empty. */
  lemma NothingHeardBefore(b: Battle, u: string, v: string)
    requires BattleInv(b) && CanStep(b, Join(v)) && u in b.players && u != v
    requires b.players[u].joined && b.players[u].pos < |b.places|
    ensures Hears(Next(b, Join(v)), u, v)
    ensures FromUser(Next(b, Join(v)).players[v].link.server.log, u) == []
  {
    assert PlayerInv(v, b.players[v]);
    assert Next(b, Join(v)).places[|b.places|] == Some(v);
  }

  /** msgs are all of u's; those from k on went behind log, and what is accepted passed. */
  lemma RestPassed(msgs: seq<BattleMessage>, k: nat, log: seq<BattleMessage>, pushed: seq<BattleMessage>,
                   accept: set<string>, u: string)
    requires k <= |msgs| && u in accept && forall m :: m in msgs ==> m.userId == u
    requires pushed == log + msgs[k..k + (|msgs| - k)]
    ensures FromUser(Accepted(pushed, |pushed|, accept), u) == FromUser(log, u) + msgs[k..]
  {
    assert msgs[k..k + (|msgs| - k)] == msgs[k..];
    DuePassed(log, msgs[k..], accept, u);
  }

  /** All of u's messages in the log pass, those of msgs behind the others. */
  lemma DuePassed(log: seq<BattleMessage>, msgs: seq<BattleMessage>, accept: set<string>, u: string)
    requires u in accept && forall m :: m in msgs ==> m.userId == u
    ensures FromUser(Accepted(log + msgs, |log + msgs|, accept), u) == FromUser(log, u) + msgs
  {
    FromAccepted(log + msgs, |log + msgs|, accept, u);
    assert (log + msgs)[..|log + msgs|] == log + msgs;
    FromUserConcat(log, msgs, u);
    AllFromUser(msgs, u);
  }

  lemma {:induction false} AllFromUser(msgs: seq<BattleMessage>, u: string)
    requires forall m :: m in msgs ==> m.userId == u
    ensures FromUser(msgs, u) == msgs
    decreases |msgs|
  {
    if msgs != [] {
      AllFromUser(msgs[1..], u);
      AllFromUser(msgs[..|msgs| - 1], u);
    }
  }
}
