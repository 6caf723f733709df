/** Who fights whom: the entry list of a lobby and the choice of a battle's players, pkg/lobby/model/lobby.go.
    Players of different sync fingerprints cannot play together, so each fingerprint is a group. */
module Matchmaking {
  import opened Bytes

  const NONE: byte := 0
  const AEUG: byte := 1
  const TITANS: byte := 2

  class User {
    const id: string
    var sync: string
    var entry: byte

    constructor (id: string, sync: string)
      ensures this.id == id && this.sync == sync && entry == NONE
    {
      this.id, this.sync, entry := id, sync, NONE;
    }
  }

  /** A user of the entry list as the lobby sees it at one moment. */
  datatype Entrant = Entrant(user: User, sync: string, side: byte)

  // ---- When a group can start ---------------------------------------------------------------

  predicate CanStart(lobby: uint16, a: nat, b: nat) {
    if lobby == 2 then 1 <= a && 1 <= b
    else if lobby == 3 then 1 <= a || 1 <= b
    else 2 <= a && 2 <= b
  }

  /** The rules of the lobbies: 2 is one against one, in 3 a player is enough, the others are two against two;
      and one more player never hurts. */
  lemma LobbyRules(lobby: uint16, a: nat, b: nat)
    ensures CanStart(2, a, b) <==> a > 0 && b > 0
    ensures CanStart(3, a, b) <==> a + b > 0
    ensures lobby != 2 && lobby != 3 ==> (CanStart(lobby, a, b) <==> a > 1 && b > 1)
    ensures CanStart(lobby, a, b) ==> CanStart(lobby, a + 1, b) && CanStart(lobby, a, b + 1)
  {
  }

  /** How many of a group are for a side among the first n. */
  function Count(es: seq<Entrant>, n: nat, sync: string, side: byte): (c: nat)
    requires n <= |es|
    ensures c <= n
  {
    if n == 0 then 0
    else Count(es, n - 1, sync, side) + if es[n - 1].sync == sync && es[n - 1].side == side then 1 else 0
  }

  predicate GroupCanStart(lobby: uint16, es: seq<Entrant>, n: nat, sync: string)
    requires n <= |es|
  {
    CanStart(lobby, Count(es, n, sync, AEUG), Count(es, n, sync, TITANS))
  }

  /** No group can start with fewer than n entries. */
  ghost predicate NoneStarts(lobby: uint16, es: seq<Entrant>, n: nat)
    requires n <= |es| + 1
  {
    forall m, s :: 0 <= m < n ==> !GroupCanStart(lobby, es, m, s)
  }

  /** The first n entries are the fewest with which a group can start. */
  ghost predicate FirstStart(lobby: uint16, es: seq<Entrant>, n: nat, sync: string) {
    n <= |es| && GroupCanStart(lobby, es, n, sync) && NoneStarts(lobby, es, n)
  }

  /** The group a battle is made from, and whether it can start. */
  ghost predicate Chosen(lobby: uint16, es: seq<Entrant>, sync: string, ok: bool) {
    if ok then exists n: nat :: FirstStart(lobby, es, n, sync)
    else NoneStarts(lobby, es, |es| + 1) && sync == if es == [] then "" else es[0].sync
  }

  lemma {:induction false} CountGrows(es: seq<Entrant>, m: nat, n: nat, sync: string, side: byte)
    requires m <= n <= |es|
    ensures Count(es, m, sync, side) <= Count(es, n, sync, side)
    decreases n
  {
    if m < n {
      CountGrows(es, m, n - 1, sync, side);
    }
  }

  /** A group that can start still can when more have entered. */
  lemma StartStays(lobby: uint16, es: seq<Entrant>, m: nat, n: nat, sync: string)
    requires m <= n <= |es| && GroupCanStart(lobby, es, m, sync)
    ensures GroupCanStart(lobby, es, n, sync)
  {
    CountGrows(es, m, n, sync, AEUG);
    CountGrows(es, m, n, sync, TITANS);
  }

  /** An entry lets no group start but its own. */
  lemma OnlyOwnGroup(lobby: uint16, es: seq<Entrant>, n: nat, sync: string)
    requires n < |es| && !GroupCanStart(lobby, es, n, sync) && es[n].sync != sync
    ensures !GroupCanStart(lobby, es, n + 1, sync)
  {
  }

  lemma ChosenIsUnique(lobby: uint16, es: seq<Entrant>, s: string, ok: bool, t: string, can: bool)
    requires Chosen(lobby, es, s, ok) && Chosen(lobby, es, t, can)
    ensures s == t && ok == can
  {
    if ok && can {
      var m : nat :| FirstStart(lobby, es, m, s);
      var n : nat :| FirstStart(lobby, es, n, t);
      assert m == n && n > 0;
      if s != es[n - 1].sync {
        OnlyOwnGroup(lobby, es, n - 1, s);
      }
      if t != es[n - 1].sync {
        OnlyOwnGroup(lobby, es, n - 1, t);
      }
    }
  }

  /** A battle can start exactly if some group can with everyone who entered. */
  lemma CanStartExactly(lobby: uint16, es: seq<Entrant>, sync: string, ok: bool)
    requires Chosen(lobby, es, sync, ok)
    ensures ok <==> exists s :: GroupCanStart(lobby, es, |es|, s)
  {
    if ok {
      var n : nat :| FirstStart(lobby, es, n, sync);
      StartStays(lobby, es, n, |es|, sync);
    }
  }

  // ---- The tallies of the groups ------------------------------------------------------------

  function Tally(counts: map<string, (nat, nat)>, s: string): (nat, nat) {
    if s in counts then counts[s] else (0, 0)
  }

  predicate TallyIs(counts: map<string, (nat, nat)>, es: seq<Entrant>, n: nat, s: string)
    requires n <= |es|
  {
    Tally(counts, s) == (Count(es, n, s, AEUG), Count(es, n, s, TITANS))
  }

  ghost predicate Tallied(counts: map<string, (nat, nat)>, es: seq<Entrant>, n: nat)
    requires n <= |es|
  {
    forall s :: TallyIs(counts, es, n, s)
  }

  /** A tally with one more entry. */
  function Tallying(c: (nat, nat), side: byte): (nat, nat) {
    if side == AEUG then (c.0 + 1, c.1) else if side == TITANS then (c.0, c.1 + 1) else c
  }

  lemma GroupStep(lobby: uint16, counts: map<string, (nat, nat)>, es: seq<Entrant>, n: nat, c: (nat, nat))
    requires n < |es| && Tallied(counts, es, n) && NoneStarts(lobby, es, n + 1)
    requires c == Tallying(Tally(counts, es[n].sync), es[n].side)
    ensures Tallied(counts[es[n].sync := c], es, n + 1)
    ensures if CanStart(lobby, c.0, c.1) then FirstStart(lobby, es, n + 1, es[n].sync)
            else NoneStarts(lobby, es, n + 2)
  {
    var more := counts[es[n].sync := c];
    var k := n + 1;
    forall s ensures TallyIs(more, es, k, s) {
      assert TallyIs(counts, es, n, s) && TallyIs(counts, es, n, es[n].sync);
    }
    assert TallyIs(more, es, n + 1, es[n].sync);
    if !CanStart(lobby, c.0, c.1) {
      forall m, s | 0 <= m < n + 2 ensures !GroupCanStart(lobby, es, m, s) {
        if m == n + 1 && s != es[n].sync {
          OnlyOwnGroup(lobby, es, n, s);
        }
      }
    }
  }

  lemma NobodyStarts(lobby: uint16, es: seq<Entrant>)
    ensures Tallied(map[], es, 0) && NoneStarts(lobby, es, 1)
  {
  }

  // ---- Who starts ---------------------------------------------------------------------------

  /** A side is counted in 16 bits. */
  function Next16(a: uint16): uint16 {
    if a == 0xFFFF then 0 else a + 1
  }

  function Counter(n: nat): uint16 {
    if n == 0 then 0 else Next16(Counter(n - 1))
  }

  lemma {:induction false} CounterIsLow16(n: nat)
    ensures Counter(n) == n % 0x1_0000
  {
    if n > 0 {
      CounterIsLow16(n - 1);
      var (q, r) := ((n - 1) / 0x1_0000, (n - 1) % 0x1_0000);
      assert n == 0x1_0000 * q + (r + 1);
      if r == 0xFFFF {
        assert n == 0x1_0000 * (q + 1);
      }
    }
  }

  /** Who is picked, having n of the group and side before: the first two. */
  predicate IsPicked(e: Entrant, sync: string, n: nat) {
    e.sync == sync && (e.side == AEUG || e.side == TITANS) && Counter(n) < 2
  }

  predicate PickedAt(es: seq<Entrant>, i: nat, sync: string)
    requires i < |es|
  {
    IsPicked(es[i], sync, Count(es, i, sync, es[i].side))
  }

  /** The positions of the players picked among the first n. */
  function Positions(es: seq<Entrant>, n: nat, sync: string): (ps: seq<nat>)
    requires n <= |es|
    ensures forall k :: 0 <= k < |ps| ==> ps[k] < n
  {
    if n == 0 then []
    else Positions(es, n - 1, sync) + if PickedAt(es, n - 1, sync) then [n - 1] else []
  }

  /** The players picked among the first n. */
  function Picked(es: seq<Entrant>, n: nat, sync: string): seq<Entrant>
    requires n <= |es|
  {
    if n == 0 then []
    else Picked(es, n - 1, sync) + if PickedAt(es, n - 1, sync) then [es[n - 1]] else []
  }

  /** The picks keep the order of the list, are all of the group and the first two of each side (and again
      after each 65536); nobody else is picked. */
  lemma {:induction false} PickedAreFirst(es: seq<Entrant>, n: nat, sync: string)
    requires n <= |es|
    ensures var (ps, r) := (Positions(es, n, sync), Picked(es, n, sync));
            && |ps| == |r|
            && (forall k :: 0 <= k < |ps| ==> r[k] == es[ps[k]])
            && (forall j, k :: 0 <= j < k < |ps| ==> ps[j] < ps[k])
            && (forall i :: 0 <= i < n ==> (i in ps <==> PickedAt(es, i, sync)))
  {
    if n > 0 {
      PickedAreFirst(es, n - 1, sync);
    }
  }

  /** What c entries for a side leave picked. */
  function PickedOf(c: nat): nat {
    if c == 0 then 0 else PickedOf(c - 1) + if Counter(c - 1) < 2 then 1 else 0
  }

  /** Two for each full round of the counter, and up to two of the round it is in. */
  lemma {:induction false} PickedOfRounds(c: nat)
    ensures PickedOf(c) == 2 * (c / 0x1_0000) + if c % 0x1_0000 < 2 then c % 0x1_0000 else 2
  {
    if c > 0 {
      PickedOfRounds(c - 1);
      CounterIsLow16(c - 1);
      if (c - 1) % 0x1_0000 == 0xFFFF {
        assert c / 0x1_0000 == (c - 1) / 0x1_0000 + 1;
      } else {
        assert c / 0x1_0000 == (c - 1) / 0x1_0000;
      }
    }
  }

  lemma {:induction false} CountOfPrefix(es: seq<Entrant>, more: seq<Entrant>, n: nat, sync: string, side: byte)
    requires n <= |es|
    ensures Count(es + more, n, sync, side) == Count(es, n, sync, side)
  {
    if n > 0 {
      CountOfPrefix(es, more, n - 1, sync, side);
    }
  }

  function CountAll(es: seq<Entrant>, sync: string, side: byte): nat {
    Count(es, |es|, sync, side)
  }

  lemma CountMore(es: seq<Entrant>, e: Entrant, sync: string, side: byte)
    ensures CountAll(es + [e], sync, side) ==
            CountAll(es, sync, side) + if e.sync == sync && e.side == side then 1 else 0
  {
    CountOfPrefix(es, [e], |es|, sync, side);
  }

  lemma {:induction false} PickedCounts(es: seq<Entrant>, n: nat, sync: string, side: byte)
    requires n <= |es| && (side == AEUG || side == TITANS)
    ensures CountAll(Picked(es, n, sync), sync, side) == PickedOf(Count(es, n, sync, side))
  {
    if n > 0 {
      PickedCounts(es, n - 1, sync, side);
      PickedMore(es, n - 1, sync, side);
    }
  }

  lemma PickedMore(es: seq<Entrant>, n: nat, sync: string, side: byte)
    requires n < |es| && (side == AEUG || side == TITANS)
    ensures CountAll(Picked(es, n + 1, sync), sync, side) == CountAll(Picked(es, n, sync), sync, side)
              + if es[n].sync == sync && es[n].side == side && Counter(Count(es, n, sync, side)) < 2 then 1 else 0
  {
    CountMore(Picked(es, n, sync), es[n], sync, side);
    assert Picked(es, n, sync) + [] == Picked(es, n, sync);
  }

  /** A group that can start still can with only its picked players, who are two a side at most exactly if
      no more than 65536 entered for that side. */
  lemma PickedCanStart(lobby: uint16, es: seq<Entrant>, sync: string)
    ensures var r := Picked(es, |es|, sync);
            && (GroupCanStart(lobby, r, |r|, sync) <==> GroupCanStart(lobby, es, |es|, sync))
            && (CountAll(r, sync, AEUG) <= 2 <==> CountAll(es, sync, AEUG) <= 0x1_0000)
            && (CountAll(r, sync, TITANS) <= 2 <==> CountAll(es, sync, TITANS) <= 0x1_0000)
  {
    PickedCounts(es, |es|, sync, AEUG);
    PickedCounts(es, |es|, sync, TITANS);
    EnoughPicked(CountAll(es, sync, AEUG));
    EnoughPicked(CountAll(es, sync, TITANS));
  }

  lemma EnoughPicked(c: nat)
    ensures PickedOf(c) <= c && (c >= 2 ==> PickedOf(c) >= 2) && (c < 2 ==> PickedOf(c) == c)
    ensures PickedOf(c) <= 2 <==> c <= 0x1_0000
  {
    PickedOfRounds(c);
  }

  /** When a battle can start, it can with the players picked for it: they are all of the group that starts
      first, nobody twice, and its own side counts are enough. */
  lemma BattleCanStart(lobby: uint16, es: seq<Entrant>, sync: string)
    requires Chosen(lobby, es, sync, true)
    ensures var r := Picked(es, |es|, sync);
            && GroupCanStart(lobby, r, |r|, sync)
            && (forall e :: e in r ==> e in es && e.sync == sync && (e.side == AEUG || e.side == TITANS))
            && (Distinct(es) ==> Distinct(r))
            && (|es| <= 0x1_0000 ==> |r| <= 4)
  {
    var r, ps := Picked(es, |es|, sync), Positions(es, |es|, sync);
    var n : nat :| FirstStart(lobby, es, n, sync);
    StartStays(lobby, es, n, |es|, sync);
    PickedCanStart(lobby, es, sync);
    PickedAreFirst(es, |es|, sync);
    forall e | e in r ensures e in es && e.sync == sync && (e.side == AEUG || e.side == TITANS) {
      var k :| 0 <= k < |r| && r[k] == e;
      assert ps[k] in ps && PickedAt(es, ps[k], sync);
    }
    OnlyTwoSides(r, |r|, sync);
  }

  /** Nobody is picked for two entries. */
  ghost predicate DifferentUsers(es: seq<Entrant>) {
    forall i, j :: 0 <= i < j < |es| ==> es[i].user != es[j].user
  }

  /** As the lobby sees its entries: a user has one side and one fingerprint at a time. */
  ghost predicate OneSideEach(es: seq<Entrant>) {
    forall i, j :: 0 <= i < j < |es| && es[i].user == es[j].user ==> es[i] == es[j]
  }

  /** Of every 65536 entries for a side the first two are picked. */
  predicate FirstTwo(n: nat) {
    n % 0x1_0000 < 2
  }

  predicate InGroup(e: Entrant, sync: string) {
    e.sync == sync && (e.side == AEUG || e.side == TITANS)
  }

  lemma PickedAtIs(es: seq<Entrant>, i: nat, sync: string)
    requires i < |es|
    ensures PickedAt(es, i, sync) <==> InGroup(es[i], sync) && FirstTwo(Count(es, i, sync, es[i].side))
  {
    CounterIsLow16(Count(es, i, sync, es[i].side));
  }

  /** i and j are entries of one user, each among the first two of some 65536 for the user's side. */
  predicate OneUserAt(es: seq<Entrant>, sync: string, i: nat, j: nat)
    requires i < |es| && j < |es|
  {
    && es[i] == es[j] && InGroup(es[j], sync)
    && FirstTwo(Count(es, i, sync, es[i].side)) && FirstTwo(Count(es, j, sync, es[j].side))
  }

  predicate EnteredTwice(es: seq<Entrant>, sync: string) {
    exists i, j :: 0 <= i < j < |es| && OneUserAt(es, sync, i, j)
  }

  /** The picked players are different users if and only if no user has two such entries. */
  lemma PickedAreDifferentUsers(es: seq<Entrant>, sync: string)
    requires OneSideEach(es)
    ensures DifferentUsers(Picked(es, |es|, sync)) <==> !EnteredTwice(es, sync)
  {
    if EnteredTwice(es, sync) {
      var i, j :| 0 <= i < j < |es| && OneUserAt(es, sync, i, j);
      PickedAtIs(es, i, sync);
      PickedAtIs(es, j, sync);
      var a := PlaceOf(es, sync, i);
      var b := PlaceOf(es, sync, j);
      PlacesAreOrdered(es, sync, a, b);
      PlacesAreOrdered(es, sync, b, a);
    } else {
      var r := Picked(es, |es|, sync);
      forall a, b | 0 <= a < b < |r| ensures r[a].user != r[b].user {
        PlacesAreOrdered(es, sync, a, b);
        var ps := Positions(es, |es|, sync);
        PickedAtIs(es, ps[a], sync);
        PickedAtIs(es, ps[b], sync);
        assert !OneUserAt(es, sync, ps[a], ps[b]);
      }
    }
  }

  /** Up to 65536 entries a side, that is if the second entry of a side is by the user of the first. */
  lemma EnteredTwiceExactly(es: seq<Entrant>, sync: string)
    requires CountAll(es, sync, AEUG) <= 0x1_0000 && CountAll(es, sync, TITANS) <= 0x1_0000
    ensures EnteredTwice(es, sync) <==>
            exists i, j :: 0 <= i < j < |es| && es[i] == es[j] && InGroup(es[j], sync)
                           && Count(es, i, sync, es[i].side) == 0 && Count(es, j, sync, es[j].side) == 1
  {
    forall i, j | 0 <= i < j < |es| && es[i] == es[j] && InGroup(es[j], sync)
      ensures OneUserAt(es, sync, i, j) <==>
              Count(es, i, sync, es[i].side) == 0 && Count(es, j, sync, es[j].side) == 1
    {
      CountsAreSmall(es, sync, i, j);
    }
    if EnteredTwice(es, sync) {
      var i, j :| 0 <= i < j < |es| && OneUserAt(es, sync, i, j);
      assert Count(es, i, sync, es[i].side) == 0 && Count(es, j, sync, es[j].side) == 1;
    }
  }

  lemma CountsAreSmall(es: seq<Entrant>, sync: string, i: nat, j: nat)
    requires i < j < |es| && es[i] == es[j] && InGroup(es[j], sync)
    requires CountAll(es, sync, es[j].side) <= 0x1_0000
    ensures Count(es, i, sync, es[i].side) < Count(es, j, sync, es[j].side) < 0x1_0000
  {
    CountGrows(es, i + 1, j, sync, es[j].side);
    CountGrows(es, j + 1, |es|, sync, es[j].side);
  }

  lemma PlaceOf(es: seq<Entrant>, sync: string, i: nat) returns (a: nat)
    requires i < |es| && PickedAt(es, i, sync)
    ensures a < |Picked(es, |es|, sync)| == |Positions(es, |es|, sync)|
    ensures Positions(es, |es|, sync)[a] == i && Picked(es, |es|, sync)[a] == es[i]
  {
    PickedAreFirst(es, |es|, sync);
    assert i in Positions(es, |es|, sync);
    a :| 0 <= a < |Positions(es, |es|, sync)| && Positions(es, |es|, sync)[a] == i;
  }

  lemma PlacesAreOrdered(es: seq<Entrant>, sync: string, a: nat, b: nat)
    requires a < |Picked(es, |es|, sync)| && b < |Picked(es, |es|, sync)|
    ensures var (r, ps) := (Picked(es, |es|, sync), Positions(es, |es|, sync));
            && |r| == |ps| && r[a] == es[ps[a]] && r[b] == es[ps[b]] && (a < b ==> ps[a] < ps[b])
            && PickedAt(es, ps[a], sync) && PickedAt(es, ps[b], sync)
  {
    PickedAreFirst(es, |es|, sync);
    var ps := Positions(es, |es|, sync);
    assert ps[a] in ps && ps[b] in ps;
  }

  /** Entry appends a user as often as it is called with a side: after two players entered twice each for
      opposite sides, a battle of two against two starts with nobody else. */
  lemma TwoEnterTwice(lobby: uint16, a: Entrant, b: Entrant)
    requires lobby != 2 && lobby != 3
    requires a.sync == b.sync && a.side == AEUG && b.side == TITANS
    ensures var ids := AfterEntry(AfterEntry(AfterEntry(AfterEntry([], a.user.id, AEUG), a.user.id, AEUG),
                                             b.user.id, TITANS), b.user.id, TITANS);
            ids == [a.user.id, a.user.id, b.user.id, b.user.id]
    ensures Chosen(lobby, [a, a, b, b], a.sync, true) && Picked([a, a, b, b], 4, a.sync) == [a, a, b, b]
  {
    var es := [a, a, b, b];
    assert es[0] == es[1] == a && es[2] == es[3] == b;
    assert Count(es, 1, a.sync, AEUG) == 1 && Count(es, 1, a.sync, TITANS) == 0;
    assert Count(es, 2, a.sync, AEUG) == 2 && Count(es, 2, a.sync, TITANS) == 0;
    assert Count(es, 3, a.sync, AEUG) == 2 && Count(es, 3, a.sync, TITANS) == 1;
    assert Count(es, 4, a.sync, AEUG) == 2 && Count(es, 4, a.sync, TITANS) == 2;
    forall m, s | 0 <= m < 4 ensures !GroupCanStart(lobby, es, m, s) {
      CountGrows(es, m, 3, s, TITANS);
      assert Count(es, 3, s, TITANS) <= 1;
    }
    assert FirstStart(lobby, es, 4, a.sync);
    assert Counter(0) == 0 && Counter(1) == 1;
    assert PickedAt(es, 0, a.sync) && PickedAt(es, 1, a.sync) && PickedAt(es, 2, a.sync) && PickedAt(es, 3, a.sync);
    assert Picked(es, 1, a.sync) == [] + [a];
    assert Picked(es, 2, a.sync) == [a] + [a];
    assert Picked(es, 3, a.sync) == [a, a] + [b];
    assert Picked(es, 4, a.sync) == [a, a, b] + [b];
  }

  /** The entry list after an entry; side NONE takes it back. */
  function AfterEntry(ids: seq<string>, id: string, side: byte): seq<string> {
    if side == NONE then RemoveFirst(ids, id) else ids + [id]
  }

  lemma {:induction false} OnlyTwoSides(es: seq<Entrant>, n: nat, sync: string)
    requires n <= |es| && forall e :: e in es ==> e.sync == sync && (e.side == AEUG || e.side == TITANS)
    ensures n == Count(es, n, sync, AEUG) + Count(es, n, sync, TITANS)
  {
    if n > 0 {
      OnlyTwoSides(es, n - 1, sync);
      assert es[n - 1] in es;
    }
  }

  // ---- The entry list -----------------------------------------------------------------------

  /** The list without the first occurrence of an id. */
  function RemoveFirst(ids: seq<string>, id: string): (r: seq<string>) {
    if ids == [] then []
    else if ids[0] == id then ids[1..]
    else [ids[0]] + RemoveFirst(ids[1..], id)
  }

  predicate Distinct<T(==)>(s: seq<T>) {
    forall i, j :: 0 <= i < j < |s| ==> s[i] != s[j]
  }

  /** One occurrence less, and nothing else changes. */
  lemma {:induction false} RemoveFirstRemovesOne(ids: seq<string>, id: string)
    ensures multiset(RemoveFirst(ids, id)) == multiset(ids) - multiset{id}
    decreases |ids|
  {
    if ids != [] {
      var (head, tail) := (ids[0], ids[1..]);
      assert ids == [head] + tail;
      RemoveFirstRemovesOne(tail, id);
      assert multiset(ids) == multiset{head} + multiset(tail);
      if head != id {
        assert multiset([head] + RemoveFirst(tail, id)) == multiset{head} + multiset(RemoveFirst(tail, id));
      }
    }
  }

  /** From a list that names nobody twice, who leaves is gone. */
  lemma {:induction false} RemovedIsGone(ids: seq<string>, id: string)
    requires Distinct(ids)
    ensures Distinct(RemoveFirst(ids, id))
    ensures forall x :: x in RemoveFirst(ids, id) <==> x in ids && x != id
    decreases |ids|
  {
    if ids != [] {
      assert ids == [ids[0]] + ids[1..];
      RemovedIsGone(ids[1..], id);
      assert ids[0] !in ids[1..];
    }
  }

  lemma RemoveFirstAt(ids: seq<string>, id: string, i: nat)
    requires i < |ids| && ids[i] == id && id !in ids[..i]
    ensures RemoveFirst(ids, id) == ids[..i] + ids[i + 1..]
    decreases i
  {
    if i > 0 {
      assert ids[0] in ids[..i];
      assert ids[1..][..i - 1] == ids[..i][1..];
      RemoveFirstAt(ids[1..], id, i - 1);
    }
  }

  lemma RemoveFirstAbsent(ids: seq<string>, id: string)
    requires id !in ids
    ensures RemoveFirst(ids, id) == ids
  {
    if ids != [] {
      assert ids[0] in ids;
      RemoveFirstAbsent(ids[1..], id);
    }
  }

  class Lobby {
    const id: uint16
    var users: map<string, User>
    var entryUsers: seq<string>

    constructor (id: uint16)
      ensures this.id == id && users == map[] && entryUsers == []
    {
      this.id, users, entryUsers := id, map[], [];
    }

    ghost function EntrantOf(u: User): Entrant
      reads u
    {
      Entrant(u, u.sync, u.entry)
    }

    /** Of the first n entries those whose user is in the lobby. */
    ghost function EntrantsOf(n: nat): seq<Entrant>
      requires n <= |entryUsers|
      reads this, users.Values
    {
      if n == 0 then []
      else EntrantsOf(n - 1) + if entryUsers[n - 1] in users then [EntrantOf(users[entryUsers[n - 1]])] else []
    }

    ghost function Entrants(): seq<Entrant>
      reads this, users.Values
    {
      EntrantsOf(|entryUsers|)
    }

    lemma {:induction false} EntrantsHaveOneSide(n: nat)
      requires n <= |entryUsers|
      ensures forall e :: e in EntrantsOf(n) ==> e == EntrantOf(e.user)
      ensures OneSideEach(EntrantsOf(n))
    {
      if n > 0 {
        EntrantsHaveOneSide(n - 1);
      }
    }

    method Enter(u: User)
      modifies this`users
      ensures users == old(users)[u.id := u]
    {
      users := users[u.id := u];
    }

    method Exit(userID: string)
      modifies this
      ensures users == old(users) - {userID}
      ensures entryUsers == if userID in old(users) then RemoveFirst(old(entryUsers), userID) else old(entryUsers)
    {
      if userID in users {
        users := users - {userID};
        RemoveEntry(userID);
      }
    }

    method RemoveEntry(userID: string)
      modifies this`entryUsers
      ensures entryUsers == RemoveFirst(old(entryUsers), userID)
    {
      for i := 0 to |entryUsers|
        invariant entryUsers == old(entryUsers) && userID !in entryUsers[..i]
      {
        if entryUsers[i] == userID {
          RemoveFirstAt(entryUsers, userID, i);
          entryUsers := entryUsers[..i] + entryUsers[i + 1..];
          return;
        }
      }
      assert entryUsers[..|entryUsers|] == entryUsers;
      RemoveFirstAbsent(entryUsers, userID);
    }

    method Entry(u: User, side: byte)
      modifies this`entryUsers, u`entry
      ensures u.entry == side
      ensures entryUsers == AfterEntry(old(entryUsers), u.id, side)
    {
      u.entry := side;
      if side == NONE {
        RemoveEntry(u.id);
      } else {
        entryUsers := entryUsers + [u.id];
      }
    }

    lemma EntrantsPrefix(n: nat)
      requires n <= |entryUsers|
      ensures EntrantsOf(n) <= Entrants()
      decreases |entryUsers| - n
    {
      if n < |entryUsers| {
        EntrantsPrefix(n + 1);
      }
    }

    /** Where the entry list is at i, the entrants are at the number of those before. */
    lemma EntrantAt(i: nat)
      requires i < |entryUsers|
      ensures |EntrantsOf(i)| <= |Entrants()|
      ensures if entryUsers[i] !in users then EntrantsOf(i + 1) == EntrantsOf(i)
              else |EntrantsOf(i + 1)| == |EntrantsOf(i)| + 1 <= |Entrants()|
                   && Entrants()[|EntrantsOf(i)|] == EntrantOf(users[entryUsers[i]])
    {
      EntrantsPrefix(i);
      EntrantsPrefix(i + 1);
    }

    /** The group that can start with the fewest entries, or else the first entry's. */
    method StartGroup() returns (sync: string, ok: bool)
      ensures Chosen(id, Entrants(), sync, ok)
    {
      var seen := false;
      sync, ok := "", false;
      var counts: map<string, (nat, nat)> := map[];
      ghost var es := Entrants();
      ghost var n := 0;
      NobodyStarts(id, es);
      for i := 0 to |entryUsers|
        invariant n == |EntrantsOf(i)| <= |es|
        invariant !ok && seen == (n > 0) && sync == if seen then es[0].sync else ""
        invariant Tallied(counts, es, n)
        invariant NoneStarts(id, es, n + 1)
      {
        EntrantAt(i);
        if entryUsers[i] !in users {
          continue;
        }
        var u := users[entryUsers[i]];
        if !seen {
          sync, seen := u.sync, true;
        }
        var c := if u.sync in counts then counts[u.sync] else (0, 0);
        if u.entry == AEUG {
          c := (c.0 + 1, c.1);
        } else if u.entry == TITANS {
          c := (c.0, c.1 + 1);
        }
        GroupStep(id, counts, es, n, c);
        counts := counts[u.sync := c];
        n := n + 1;
        if CanStart(id, c.0, c.1) {
          return u.sync, true;
        }
      }
    }

    method CanBattleStart() returns (ok: bool)
      ensures ok <==> exists s :: GroupCanStart(id, Entrants(), |Entrants()|, s)
    {
      var sync;
      sync, ok := StartGroup();
      CanStartExactly(id, Entrants(), sync, ok);
    }

    /** The players of the battle are those picked from the group that starts. */
    method StartBattleUsers() returns (ret: seq<User>)
      ensures exists sync, ok :: Chosen(id, Entrants(), sync, ok)
                                 && ret == UsersOf(Picked(Entrants(), |Entrants()|, sync))
    {
      var sync, ok := StartGroup();
      ret := Pick(sync);
      assert Chosen(id, Entrants(), sync, ok);
    }

    method Pick(sync: string) returns (ret: seq<User>)
      ensures ret == UsersOf(Picked(Entrants(), |Entrants()|, sync))
    {
      var a: uint16, b: uint16 := 0, 0;
      ret := [];
      ghost var es := Entrants();
      ghost var n := 0;
      for i := 0 to |entryUsers|
        invariant n == |EntrantsOf(i)| <= |es|
        invariant PickedSoFar(es, n, sync, ret, a, b)
      {
        EntrantAt(i);
        if entryUsers[i] in users {
          var u := users[entryUsers[i]];
          assert es[n] == EntrantOf(u);
          PickStep(es, n, sync, ret, a, b);
          n := n + 1;
          ret, a, b := PickOne(u, sync, ret, a, b);
        }
      }
    }

    /** What the loop does with a user who is in the lobby. */
    method PickOne(u: User, sync: string, us: seq<User>, a: uint16, b: uint16)
      returns (us1: seq<User>, a1: uint16, b1: uint16)
      ensures var (aeug, titans) := (u.sync == sync && u.entry == AEUG, u.sync == sync && u.entry == TITANS);
              && us1 == (if (aeug && a < 2) || (titans && b < 2) then us + [u] else us)
              && a1 == (if aeug then Next16(a) else a) && b1 == (if titans then Next16(b) else b)
    {
      us1, a1, b1 := us, a, b;
      if u.sync == sync {
        if u.entry == AEUG {
          if a < 2 {
            us1 := us + [u];
          }
          a1 := Next16(a);
        } else if u.entry == TITANS {
          if b < 2 {
            us1 := us + [u];
          }
          b1 := Next16(b);
        }
      }
    }
  }

  /** The loop over the entries after n of them. */
  predicate PickedSoFar(es: seq<Entrant>, n: nat, sync: string, us: seq<User>, a: uint16, b: uint16)
    requires n <= |es|
  {
    && us == UsersOf(Picked(es, n, sync))
    && a == Counter(Count(es, n, sync, AEUG)) && b == Counter(Count(es, n, sync, TITANS))
  }

  lemma PickStep(es: seq<Entrant>, n: nat, sync: string, us: seq<User>, a: uint16, b: uint16)
    requires n < |es| && PickedSoFar(es, n, sync, us, a, b)
    ensures var (aeug, titans) :=
              (es[n].sync == sync && es[n].side == AEUG, es[n].sync == sync && es[n].side == TITANS);
            PickedSoFar(es, n + 1, sync, if (aeug && a < 2) || (titans && b < 2) then us + [es[n].user] else us,
                        if aeug then Next16(a) else a, if titans then Next16(b) else b)
  {
  }

  function UsersOf(es: seq<Entrant>): (us: seq<User>)
    ensures |us| == |es|
    ensures forall i :: 0 <= i < |es| ==> us[i] == es[i].user
  {
    seq(|es|, i requires 0 <= i < |es| => es[i].user)
  }
}
