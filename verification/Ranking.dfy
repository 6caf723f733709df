/** The relays offered to a battle, best first: battleRelays of pkg/lobby/relay_regions.go. */
module Ranking {
  import opened RelayRegions
  import opened Provisioning

  const MAX_RELAYS := 4
  const UNREACHABLE_MS := 999

  // ---- The worst round trip of a pair -------------------------------------------------------

  /** A Go int has 64 bits. */
  function Wrap64(n: int): int {
    (n + 0x8000_0000_0000_0000) % 0x1_0000_0000_0000_0000 - 0x8000_0000_0000_0000
  }

  /** The relayed round trip of a pair. */
  function Via(a: nat, b: nat): int {
    if a > 0 && b > 0 then Wrap64(a + b) else UNREACHABLE_MS
  }

  /** Two players whose latencies are known are as far apart as these sum up to, others 999 ms. */
  lemma ViaIsSum(a: nat, b: nat)
    ensures a > 0 && b > 0 && a + b < 0x8000_0000_0000_0000 ==> Via(a, b) == a + b
    ensures a == 0 || b == 0 ==> Via(a, b) == 999
    ensures a > 0 && b > 0 ==> (Via(a, b) - (a + b)) % 0x1_0000_0000_0000_0000 == 0
                               && -0x8000_0000_0000_0000 <= Via(a, b) < 0x8000_0000_0000_0000
  {
  }

  function PairVia(lat: string -> nat, u: string, v: string): int {
    Via(lat(u), lat(v))
  }

  lemma PairViaIsSymmetric(lat: string -> nat, u: string, v: string)
    ensures PairVia(lat, u, v) == PairVia(lat, v, u)
  {
  }

  /** Two players of a battle. */
  predicate IsPair(users: seq<string>, u: string, v: string) {
    exists i, j :: 0 <= i < j < |users| && users[i] == u && users[j] == v
  }

  /** The greatest of the pairs' round trips, at least 0. */
  ghost predicate IsWorst(users: seq<string>, lat: string -> nat, w: int) {
    && w >= 0
    && (forall u, v :: IsPair(users, u, v) ==> PairVia(lat, u, v) <= w)
    && (w > 0 ==> exists u, v :: IsPair(users, u, v) && PairVia(lat, u, v) == w)
  }

  lemma WorstIsUnique(users: seq<string>, lat: string -> nat, w: int, x: int)
    requires IsWorst(users, lat, w) && IsWorst(users, lat, x)
    ensures w == x
  {
  }

  /** The players before j and player j. */
  lemma PairStep(users: seq<string>, j: nat, u: string, v: string)
    requires j < |users|
    ensures IsPair(users[..j + 1], u, v) <==> IsPair(users[..j], u, v) || (u in users[..j] && v == users[j])
  {
    var more := users[..j + 1];
    if IsPair(more, u, v) {
      var i, k :| 0 <= i < k < |more| && more[i] == u && more[k] == v;
      if k < j {
        assert users[..j][i] == u && users[..j][k] == v;
      } else {
        assert users[..j][i] == u;
      }
    }
    if IsPair(users[..j], u, v) {
      var i, k :| 0 <= i < k < j && users[..j][i] == u && users[..j][k] == v;
      assert more[i] == u && more[k] == v;
    }
    if u in users[..j] && v == users[j] {
      var i :| 0 <= i < j && users[..j][i] == u;
      assert more[i] == u && more[j] == v;
    }
  }

  /** A pair is two of the players, in either order. */
  lemma {:induction false} PairsOfMultiset(users: seq<string>, u: string, v: string)
    ensures IsPair(users, u, v) || IsPair(users, v, u) <==> multiset{u, v} <= multiset(users)
    decreases |users|
  {
    if users != [] {
      var n := |users| - 1;
      var (init, last) := (users[..n], users[n]);
      assert users == init + [last] && users[..n + 1] == users;
      PairsOfMultiset(init, u, v);
      PairStep(users, n, u, v);
      PairStep(users, n, v, u);
      TakenOut(multiset(init), last, u, v);
    }
  }

  lemma TakenOut(m: multiset<string>, x: string, u: string, v: string)
    ensures multiset{u, v} <= m + multiset{x} <==>
            multiset{u, v} <= m || (u in m && v == x) || (v in m && u == x)
  {
    if multiset{u, v} <= m + multiset{x} {
      assert multiset{u, v}[u] <= (m + multiset{x})[u] && multiset{u, v}[v] <= (m + multiset{x})[v];
    }
  }

  /** The order of the players does not matter. */
  lemma WorstIgnoresOrder(users: seq<string>, others: seq<string>, lat: string -> nat, w: int)
    requires multiset(users) == multiset(others) && IsWorst(users, lat, w)
    ensures IsWorst(others, lat, w)
  {
    forall u, v | IsPair(others, u, v) ensures PairVia(lat, u, v) <= w {
      PairsOfMultiset(others, u, v);
      PairsOfMultiset(users, u, v);
      PairViaIsSymmetric(lat, u, v);
    }
    if w > 0 {
      var u, v :| IsPair(users, u, v) && PairVia(lat, u, v) == w;
      PairsOfMultiset(users, u, v);
      PairsOfMultiset(others, u, v);
      PairViaIsSymmetric(lat, u, v);
    }
  }

  method WorstRtt(users: seq<string>, lat: string -> nat) returns (worst: int)
    ensures IsWorst(users, lat, worst)
  {
    worst := 0;
    for i := 0 to |users|
      invariant worst >= 0
      invariant forall k, j :: 0 <= k < i && k < j < |users| ==> PairVia(lat, users[k], users[j]) <= worst
      invariant worst > 0 ==> exists u, v :: IsPair(users, u, v) && PairVia(lat, u, v) == worst
    {
      for j := i + 1 to |users|
        invariant worst >= 0
        invariant forall k, m :: 0 <= k < i && k < m < |users| ==> PairVia(lat, users[k], users[m]) <= worst
        invariant forall m :: i < m < j ==> PairVia(lat, users[i], users[m]) <= worst
        invariant worst > 0 ==> exists u, v :: IsPair(users, u, v) && PairVia(lat, u, v) == worst
      {
        var a, b := lat(users[i]), lat(users[j]);
        var via := UNREACHABLE_MS;
        if a > 0 && b > 0 {
          via := Wrap64(a + b);
        }
        assert via == PairVia(lat, users[i], users[j]) && IsPair(users, users[i], users[j]);
        worst := if worst < via then via else worst;
      }
    }
  }

  // ---- The ranking --------------------------------------------------------------------------

  function LatencyTo(info: string -> Info, region: string): string -> nat {
    u => Latency(info(u), region)
  }

  datatype Scored = Scored(addr: string, worst: int)

  predicate Before(x: Scored, y: Scored) {
    x.worst < y.worst || (x.worst == y.worst && Less(x.addr, y.addr))
  }

  predicate Sorted(list: seq<Scored>) {
    forall i, j :: 0 <= i < j < |list| ==> Before(list[i], list[j])
  }

  /** The shorter worst round trip comes first, and of equal ones the address that comes first. */
  lemma BestFirst(list: seq<Scored>, i: nat, j: nat)
    requires Sorted(list) && i < j < |list|
    ensures list[i].worst <= list[j].worst && (list[i].worst == list[j].worst ==> Less(list[i].addr, list[j].addr))
  {
  }

  lemma BeforeIsOrder(x: Scored, y: Scored, z: Scored)
    ensures !Before(x, x) && !(Before(x, y) && Before(y, x)) && (x.addr != y.addr ==> Before(x, y) || Before(y, x))
    ensures Before(x, y) && Before(y, z) ==> Before(x, z)
  {
    LessIsTotal(x.addr, x.addr);
    LessIsTotal(x.addr, y.addr);
    if Less(x.addr, y.addr) && Less(y.addr, z.addr) {
      LessIsTransitive(x.addr, y.addr, z.addr);
    }
  }

  lemma HeadIn(s: seq<Scored>)
    ensures s != [] ==> s[0] in s
  {
  }

  /** Sorting leaves no choice. */
  lemma {:induction false} SortedIsUnique(a: seq<Scored>, b: seq<Scored>)
    requires Sorted(a) && Sorted(b) && forall x :: x in a <==> x in b
    ensures a == b
    decreases |a|
  {
    HeadIn(a);
    HeadIn(b);
    if a != [] {
      assert a[0] in b && b[0] in a;
      BeforeIsOrder(a[0], b[0], a[0]);
      assert a[0] == b[0];
      BeforeIsOrder(a[0], a[0], a[0]);
      assert a == [a[0]] + a[1..] && b == [b[0]] + b[1..];
      assert a[0] !in a[1..] && b[0] !in b[1..];
      forall x ensures x in a[1..] <==> x in b[1..] {
        assert x in a <==> x in [a[0]] + a[1..];
        assert x in b <==> x in [b[0]] + b[1..];
      }
      SortedIsUnique(a[1..], b[1..]);
    }
  }

  /** All registered relays, each with its worst pair, in order. */
  ghost predicate IsRanking(byAddr: map<string, RegionalRelay>, users: seq<string>, info: string -> Info,
                            list: seq<Scored>) {
    && Sorted(list)
    && (forall x :: x in list ==> x.addr in byAddr && IsWorst(users, LatencyTo(info, byAddr[x.addr].region), x.worst))
    && (forall a :: a in byAddr ==> exists x :: x in list && x.addr == a)
  }

  /** The ranking depends neither on the order of the map nor on that of the players. */
  lemma RankingIsCanonical(byAddr: map<string, RegionalRelay>, users: seq<string>, others: seq<string>,
                           info: string -> Info, a: seq<Scored>, b: seq<Scored>)
    requires multiset(users) == multiset(others)
    requires IsRanking(byAddr, users, info, a) && IsRanking(byAddr, others, info, b)
    ensures a == b
  {
    SameScores(byAddr, users, others, info, a, b);
    SameScores(byAddr, others, users, info, b, a);
    SortedIsUnique(a, b);
  }

  lemma SameScores(byAddr: map<string, RegionalRelay>, users: seq<string>, others: seq<string>,
                   info: string -> Info, a: seq<Scored>, b: seq<Scored>)
    requires multiset(users) == multiset(others)
    requires IsRanking(byAddr, users, info, a) && IsRanking(byAddr, others, info, b)
    ensures forall x :: x in a ==> x in b
  {
    forall x | x in a ensures x in b {
      var lat := LatencyTo(info, byAddr[x.addr].region);
      var y :| y in b && y.addr == x.addr;
      WorstIgnoresOrder(users, others, lat, x.worst);
      WorstIsUnique(others, lat, x.worst, y.worst);
    }
  }

  // ---- The list offered ---------------------------------------------------------------------

  datatype Offer = Regional(addr: string) | LobbysOwn

  function Offers(list: seq<Scored>): (r: seq<Offer>)
    ensures |r| == |list| && forall i :: 0 <= i < |r| ==> r[i] == Regional(list[i].addr)
  {
    seq(|list|, i requires 0 <= i < |list| => Regional(list[i].addr))
  }

  function AtMostFour(r: seq<Offer>): seq<Offer> {
    if |r| > MAX_RELAYS then r[..MAX_RELAYS] else r
  }

  /** The best relays come first, and the lobby's own last if fewer than four are registered. */
  lemma OfferedAre(list: seq<Scored>, own: bool, relays: seq<Offer>)
    requires relays == AtMostFour(Offers(list) + if own then [LobbysOwn] else [])
    ensures |relays| == if |list| >= 4 then 4 else if own then |list| + 1 else |list|
    ensures forall i :: 0 <= i < |relays| && i < |list| ==> relays[i] == Regional(list[i].addr)
    ensures LobbysOwn in relays <==> own && |list| < 4
    ensures LobbysOwn in relays ==> relays[|relays| - 1] == LobbysOwn
  {
  }

  method BattleRelays(byAddr: map<string, RegionalRelay>, users: seq<string>, info: string -> Info, own: bool)
    returns (relays: seq<Offer>)
    requires forall a :: a in byAddr ==> byAddr[a].publicAddr == a
    ensures exists list :: IsRanking(byAddr, users, info, list)
                           && relays == AtMostFour(Offers(list) + if own then [LobbysOwn] else [])
  {
    var list := Ranked(byAddr, users, info);
    relays := Offered(list, own);
  }

  method Offered(list: seq<Scored>, own: bool) returns (relays: seq<Offer>)
    ensures relays == AtMostFour(Offers(list) + if own then [LobbysOwn] else [])
  {
    relays := [];
    for i := 0 to |list|
      invariant relays == Offers(list[..i])
    {
      relays := relays + [Regional(list[i].addr)];
    }
    assert list[..|list|] == list;
    if own {
      relays := relays + [LobbysOwn];
    }
    if |relays| > MAX_RELAYS {
      relays := relays[..MAX_RELAYS];
    }
  }

  method Ranked(byAddr: map<string, RegionalRelay>, users: seq<string>, info: string -> Info)
      returns (list: seq<Scored>)
    requires forall a :: a in byAddr ==> byAddr[a].publicAddr == a
    ensures IsRanking(byAddr, users, info, list)
  {
    list := Score(byAddr, users, info);
    list := SortSlice(list);
  }

  /** Each relay once with its worst pair, in the order of the map. */
  method Score(byAddr: map<string, RegionalRelay>, users: seq<string>, info: string -> Info) returns (list: seq<Scored>)
    requires forall a :: a in byAddr ==> byAddr[a].publicAddr == a
    ensures AllScored(byAddr, users, info, list) && OnceEach(list, byAddr.Keys)
  {
    list := [];
    var left := byAddr.Keys;
    while left != {}
      invariant left <= byAddr.Keys && AllScored(byAddr, users, info, list)
      invariant OnceEach(list, byAddr.Keys - left)
      decreases |left|
    {
      var a :| a in left;
      var r := byAddr[a];
      var worst := WorstRtt(users, LatencyTo(info, r.region));
      OnceMore(list, byAddr.Keys - left, Scored(a, worst));
      list := list + [Scored(r.publicAddr, worst)];
      assert byAddr.Keys - (left - {a}) == byAddr.Keys - left + {a};
      left := left - {a};
    }
    assert byAddr.Keys - left == byAddr.Keys;
  }

  ghost predicate AllScored(byAddr: map<string, RegionalRelay>, users: seq<string>, info: string -> Info,
                            list: seq<Scored>) {
    forall x :: x in list ==> x.addr in byAddr && IsWorst(users, LatencyTo(info, byAddr[x.addr].region), x.worst)
  }

  /** The relays in list are those at addrs, each once. */
  predicate OnceEach(list: seq<Scored>, addrs: set<string>) {
    && (forall x :: x in list ==> x.addr in addrs)
    && (forall a :: a in addrs ==> exists x :: x in list && x.addr == a)
    && forall i, j :: 0 <= i < j < |list| ==> list[i].addr != list[j].addr
  }

  lemma OnceMore(list: seq<Scored>, addrs: set<string>, x: Scored)
    requires OnceEach(list, addrs) && x.addr !in addrs
    ensures OnceEach(list + [x], addrs + {x.addr})
  {
    var more := list + [x];
    assert x in more && forall y :: y in list ==> y in more;
    forall a | a in addrs ensures exists y :: y in more && y.addr == a {
      var y :| y in list && y.addr == a;
      assert y in more;
    }
  }

  /** sort.Slice with the order of battleRelays. */
  method SortSlice(list: seq<Scored>) returns (r: seq<Scored>)
    requires forall i, j :: 0 <= i < j < |list| ==> list[i].addr != list[j].addr
    ensures Sorted(r) && forall x :: x in r <==> x in list
  {
    r := [];
    for n := 0 to |list|
      invariant Sorted(r) && forall x :: x in r <==> x in list[..n]
    {
      var x, k := list[n], 0;
      while k < |r| && Before(r[k], x)
        invariant k <= |r| && forall i :: 0 <= i < k ==> Before(r[i], x)
      {
        k := k + 1;
      }
      InsertKeepsSorted(r, k, x);
      assert list[..n + 1] == list[..n] + [x];
      r := r[..k] + [x] + r[k..];
    }
    assert list[..|list|] == list;
  }

  lemma InsertKeepsSorted(r: seq<Scored>, k: nat, x: Scored)
    requires Sorted(r) && k <= |r| && forall y :: y in r ==> y.addr != x.addr
    requires (forall i :: 0 <= i < k ==> Before(r[i], x)) && (k < |r| ==> !Before(r[k], x))
    ensures Sorted(r[..k] + [x] + r[k..])
    ensures forall y :: y in r[..k] + [x] + r[k..] <==> y in r || y == x
  {
    forall i | k <= i < |r| ensures Before(x, r[i]) {
      BeforeIsOrder(r[k], x, x);
      assert r[k] in r;
      BeforeIsOrder(x, r[k], r[i]);
    }
    var all := r[..k] + [x] + r[k..];
    forall i, j | 0 <= i < j < |all| ensures Before(all[i], all[j]) {
    }
    assert r == r[..k] + r[k..];
  }
}
