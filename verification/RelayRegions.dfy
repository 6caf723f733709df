/** Regions of relays and players' latencies to them: relayNeeded and bestRelayRegion of
    pkg/lobby/relay_provision.go. Both loop over a map, in an order that is not fixed. */
module RelayRegions {
  import opened Wrappers

  type Info = map<string, string>

  const MIN_USERS := 4

  /** The area of each region. */
  type Table = m: map<string, string> | "" !in m

  const GROUPS: Table := map[
    "asia-east1" := "asia-east",
    "asia-east2" := "asia-east",
    "asia-northeast1" := "asia-northeast",
    "asia-northeast2" := "asia-northeast",
    "asia-northeast3" := "asia-northeast",
    "asia-southeast1" := "asia-southeast",
    "australia-southeast1" := "australia-southeast",
    "europe-west2" := "europe-west",
    "northamerica-northeast1" := "northamerica-northeast",
    "southamerica-east1" := "southamerica-east",
    "us-central1" := "us-central",
    "us-east4" := "us-east",
    "us-west2" := "us-west"
  ]

  // ---- Order of strings ---------------------------------------------------------------------

  predicate Less(a: string, b: string) {
    b != [] && (a == [] || a[0] < b[0] || (a[0] == b[0] && Less(a[1..], b[1..])))
  }

  lemma {:induction false} LessIsTotal(a: string, b: string)
    ensures if a == b then !Less(a, b) else Less(a, b) != Less(b, a)
    decreases |a|
  {
    if a != [] && b != [] && a[0] == b[0] {
      LessIsTotal(a[1..], b[1..]);
      assert a == [a[0]] + a[1..] && b == [b[0]] + b[1..];
    }
  }

  lemma {:induction false} LessIsTransitive(a: string, b: string, c: string)
    requires Less(a, b) && Less(b, c)
    ensures Less(a, c)
    decreases |a|
  {
    if a != [] && a[0] == b[0] == c[0] {
      LessIsTransitive(a[1..], b[1..], c[1..]);
    }
  }

  /** The order of strings: the first character that differs decides, and a prefix comes first. */
  lemma {:induction false} LessExactly(p: string, a: string, b: string)
    ensures Less(p + a, p + b) <==> (a == [] && b != []) || (a != [] && b != [] && a[0] < b[0])
                                    || (a != [] && b != [] && a[0] == b[0] && Less(a[1..], b[1..]))
  {
    if p == [] {
      assert p + a == a && p + b == b;
    } else {
      assert (p + a)[1..] == p[1..] + a && (p + b)[1..] == p[1..] + b;
      LessExactly(p[1..], a, b);
    }
  }

  // ---- Latencies ----------------------------------------------------------------------------

  predicate Digits(s: string) {
    forall i :: 0 <= i < |s| ==> '0' <= s[i] <= '9'
  }

  function Digit(c: char): nat
    requires '0' <= c <= '9'
  {
    c as int - '0' as int
  }

  function Decimal(s: string): nat
    requires Digits(s)
  {
    if s == [] then 0 else 10 * Decimal(s[..|s| - 1]) + Digit(s[|s| - 1])
  }

  /** strconv.Atoi: an optional sign and digits, of 64 bits. */
  function Atoi(s: string): Option<int> {
    var digits := if s != [] && (s[0] == '-' || s[0] == '+') then s[1..] else s;
    if digits == [] || !Digits(digits) then None
    else
      var n: int := if s[0] == '-' then 0 - Decimal(digits) else Decimal(digits);
      if -0x8000_0000_0000_0000 <= n < 0x8000_0000_0000_0000 then Some(n) else None
  }

  /** A number in decimal digits. */
  function Shown(n: nat): (s: string)
    ensures s != [] && Digits(s)
  {
    var digit := [('0' as int + n % 10) as char];
    if n < 10 then digit else Shown(n / 10) + digit
  }

  lemma {:induction false} DecimalOfShown(n: nat)
    ensures Decimal(Shown(n)) == n
  {
    var s := Shown(n);
    if n < 10 {
      assert s[..0] == [] && Decimal([]) == 0;
    } else {
      DecimalOfShown(n / 10);
      assert s[..|s| - 1] == Shown(n / 10);
    }
  }

  /** Atoi reads digits with or without sign, unless they are out of 64 bits. */
  lemma AtoiReads(digits: string)
    requires digits != [] && Digits(digits)
    ensures var n := Decimal(digits);
            && Atoi(digits) == Atoi(['+'] + digits) == (if n < 0x8000_0000_0000_0000 then Some(n) else None)
            && Atoi(['-'] + digits) == if n <= 0x8000_0000_0000_0000 then Some(0 - n) else None
  {
    assert '0' <= digits[0] <= '9';
    assert (['+'] + digits)[1..] == digits && (['-'] + digits)[1..] == digits;
  }

  /** It reads nothing with another character, nor a sign alone. */
  lemma AtoiRejects(s: string, i: nat)
    requires i < |s| ==> !('0' <= s[i] <= '9') && (i > 0 || |s| == 1 || (s[0] != '-' && s[0] != '+'))
    requires i >= |s| ==> s == ""
    ensures Atoi(s) == None
  {
    if s != "" && (s[0] == '-' || s[0] == '+') && i > 0 {
      assert s[1..][i - 1] == s[i];
    }
  }

  /** A player's latency to a region in milliseconds, 0 if it is not known. */
  function Latency(info: Info, region: string): nat {
    var ms := Atoi(if region in info then info[region] else "");
    if ms.None? || ms.value <= 0 then 0 else ms.value
  }

  /** What a player says in digits is the latency; nothing, 0 or less, or something else is none. */
  lemma LatencyIs(info: Info, region: string, digits: string)
    requires digits != [] && Digits(digits) && Decimal(digits) < 0x8000_0000_0000_0000
    ensures region in info && info[region] == digits ==> Latency(info, region) == Decimal(digits)
    ensures region in info && info[region] == ['-'] + digits ==> Latency(info, region) == 0
    ensures region !in info || Atoi(info[region]) == None ==> Latency(info, region) == 0
  {
    AtoiReads(digits);
    AtoiRejects("", 0);
  }

  // ---- A player's best region ---------------------------------------------------------------

  /** Shorter latency, and the name in a tie. */
  predicate Better(info: Info, r: string, s: string) {
    Latency(info, r) < Latency(info, s) || (Latency(info, r) == Latency(info, s) && Less(r, s))
  }

  /** The best of some regions, or "" if none has a latency. */
  predicate IsBest(info: Info, regions: set<string>, best: string) {
    if best == "" then forall r :: r in regions ==> Latency(info, r) == 0
    else best in regions && Latency(info, best) > 0
         && forall r :: r in regions && Latency(info, r) > 0 && r != best ==> Better(info, best, r)
  }

  lemma BestIsUnique(info: Info, regions: set<string>, b: string, c: string)
    requires IsBest(info, regions, b) && IsBest(info, regions, c)
    ensures b == c
  {
    if b != "" && c != "" && b != c {
      LessIsTotal(b, c);
    }
  }

  /** The best region: of the known latencies none is shorter, and of the regions as near none comes first. */
  lemma BestExactly(info: Info, regions: set<string>, best: string)
    requires "" !in regions
    ensures IsBest(info, regions, best) && best != "" <==>
            && best in regions && Latency(info, best) > 0
            && forall r :: r in regions && Latency(info, r) > 0 ==>
                && Latency(info, best) <= Latency(info, r)
                && (Latency(info, best) == Latency(info, r) && r != best ==> Less(best, r))
  {
  }

  /** Taking one more region into account, as the loop does. */
  lemma BestStep(info: Info, regions: set<string>, b: string, r: string)
    requires IsBest(info, regions, b) && r !in regions && r != ""
    ensures IsBest(info, regions + {r},
                   if Latency(info, r) > 0 && (b == "" || Better(info, r, b)) then r else b)
  {
    if b != "" {
      LessIsTotal(b, r);
      forall s | s in regions && Latency(info, s) > 0 && s != b && Better(info, r, b)
        ensures Better(info, r, s)
      {
        if Less(r, b) && Less(b, s) {
          LessIsTransitive(r, b, s);
        }
      }
    }
  }

  ghost function Best(groups: Table, info: Info): (b: string)
    ensures IsBest(info, groups.Keys, b)
  {
    HasBest(info, groups.Keys);
    var b :| IsBest(info, groups.Keys, b);
    b
  }

  lemma {:induction false} HasBest(info: Info, regions: set<string>)
    requires "" !in regions
    ensures exists b :: IsBest(info, regions, b)
    decreases |regions|
  {
    if regions == {} {
      assert IsBest(info, regions, "");
    } else {
      var r :| r in regions;
      HasBest(info, regions - {r});
      var b :| IsBest(info, regions - {r}, b);
      BestStep(info, regions - {r}, b, r);
      assert regions - {r} + {r} == regions;
    }
  }

  /** For every order of the map the same region. */
  method BestRelayRegion(groups: Table, info: Info) returns (best: string)
    ensures best == Best(groups, info)
  {
    var bestMs := 0;
    best := "";
    var left := groups.Keys;
    while left != {}
      invariant left <= groups.Keys && IsBest(info, groups.Keys - left, best)
      invariant bestMs == if best == "" then 0 else Latency(info, best)
      decreases |left|
    {
      var region :| region in left;
      BestStep(info, groups.Keys - left, best, region);
      assert groups.Keys - (left - {region}) == groups.Keys - left + {region};
      left := left - {region};
      var ms := Atoi(if region in info then info[region] else "");
      if ms.None? || ms.value <= 0 {
        continue;
      }
      if best == "" || ms.value < bestMs || (ms.value == bestMs && Less(region, best)) {
        best, bestMs := region, ms.value;
      }
    }
    assert groups.Keys - left == groups.Keys;
    BestIsUnique(info, groups.Keys, best, Best(groups, info));
  }

  // ---- Whether relays are needed ------------------------------------------------------------

  predicate Capable(info: Info) {
    "relay_server" in info && info["relay_server"] == "1"
  }

  /** The area of a player's best region, "" if there is none. */
  ghost function Area(groups: Table, info: Info): string {
    if Best(groups, info) in groups then groups[Best(groups, info)] else ""
  }

  /** The relay-capable users and the areas of their best regions. */
  ghost function Areas(groups: Table, users: map<string, Info>): map<string, string> {
    map id | id in users && Capable(users[id]) :: Area(groups, users[id])
  }

  predicate Apart(a: string, b: string) {
    a != "" && b != "" && a != b
  }

  ghost predicate Mixed(areas: map<string, string>, ids: set<string>) {
    exists u, v :: u in areas && v in areas && u in ids && v in ids && Apart(areas[u], areas[v])
  }

  /** A battle's worth of relay-capable users, two of them from different areas. */
  ghost predicate Needed(groups: Table, users: map<string, Info>) {
    |Areas(groups, users)| >= MIN_USERS && Mixed(Areas(groups, users), users.Keys)
  }

  /** Relays are needed exactly if four players or more say they can use one, and two of these are nearest to
      regions of different areas. */
  lemma NeededExactly(groups: Table, users: map<string, Info>)
    ensures Needed(groups, users) <==>
            && |set u | u in users && "relay_server" in users[u] && users[u]["relay_server"] == "1"| >= 4
            && exists u, v, r, q :: Nearest(groups, users, u, r) && Nearest(groups, users, v, q)
                                    && Apart(groups[r], groups[q])
  {
    var capable := set u | u in users && "relay_server" in users[u] && users[u]["relay_server"] == "1";
    var areas := Areas(groups, users);
    assert areas.Keys == capable && |areas| == |areas.Keys|;
    if Mixed(areas, users.Keys) {
      var u, v :| u in areas && v in areas && u in users.Keys && v in users.Keys && Apart(areas[u], areas[v]);
      assert Nearest(groups, users, u, Best(groups, users[u])) && Nearest(groups, users, v, Best(groups, users[v]));
    }
    if u, v, r, q :| Nearest(groups, users, u, r) && Nearest(groups, users, v, q) && Apart(groups[r], groups[q]) {
      BestIsUnique(users[u], groups.Keys, r, Best(groups, users[u]));
      BestIsUnique(users[v], groups.Keys, q, Best(groups, users[v]));
      assert Apart(areas[u], areas[v]);
    }
  }

  /** u can use a relay, and region is its best. */
  predicate Nearest(groups: Table, users: map<string, Info>, u: string, region: string) {
    && u in users && "relay_server" in users[u] && users[u]["relay_server"] == "1"
    && region in groups && IsBest(users[u], groups.Keys, region)
  }

  /** The area the loop compares with is that of some capable user, "" if none has an area. */
  ghost predicate FirstArea(areas: map<string, string>, ids: set<string>, first: string) {
    if first == "" then forall u :: u in areas && u in ids ==> areas[u] == ""
    else exists u :: u in areas && u in ids && areas[u] == first
  }

  /** Any area may be compared with: one differs from it exactly if two differ. */
  lemma MixedStep(areas: map<string, string>, ids: set<string>, first: string, id: string)
    requires FirstArea(areas, ids, first) && id !in ids && id in areas
    ensures FirstArea(areas, ids + {id}, if first == "" then areas[id] else first)
    ensures Mixed(areas, ids + {id}) <==> Mixed(areas, ids) || (first != "" && Apart(areas[id], first))
  {
    if first != "" {
      var u :| u in areas && u in ids && areas[u] == first;
      if Apart(areas[id], first) {
        assert Apart(areas[u], areas[id]);
      }
      if v :| v in areas && v in ids && Apart(areas[id], areas[v]) {
        assert Apart(areas[id], first) || Apart(areas[u], areas[v]);
      }
    }
  }

  /** What one round of the loop makes of its two variables. */
  function Compared(areas: map<string, string>, first: string, mixed: bool, id: string): (string, bool) {
    if id !in areas || areas[id] == "" then (first, mixed)
    else if first == "" then (areas[id], mixed)
    else (first, mixed || areas[id] != first)
  }

  lemma ComparedStep(areas: map<string, string>, ids: set<string>, first: string, mixed: bool, id: string)
    requires FirstArea(areas, ids, first) && mixed == Mixed(areas, ids) && id !in ids
    ensures var (f, m) := Compared(areas, first, mixed, id);
            FirstArea(areas, ids + {id}, f) && m == Mixed(areas, ids + {id})
  {
    if id in areas {
      MixedStep(areas, ids, first, id);
    }
  }

  ghost function CountIn(areas: map<string, string>, ids: set<string>): nat {
    |areas.Keys * ids|
  }

  lemma CountStep(areas: map<string, string>, ids: set<string>, id: string)
    requires id !in ids
    ensures CountIn(areas, ids + {id}) == CountIn(areas, ids) + if id in areas then 1 else 0
  {
    assert areas.Keys * (ids + {id}) == areas.Keys * ids + if id in areas then {id} else {};
  }

  lemma CountAll(areas: map<string, string>, ids: set<string>)
    requires areas.Keys <= ids
    ensures CountIn(areas, ids) == |areas|
  {
    assert areas.Keys * ids == areas.Keys;
    assert |areas| == |areas.Keys|;
  }

  /** What the loop's variables are after it saw ids. */
  ghost predicate SeenAll(areas: map<string, string>, ids: set<string>, count: int, first: string, mixed: bool) {
    count == CountIn(areas, ids) && FirstArea(areas, ids, first) && mixed == Mixed(areas, ids)
  }

  lemma LookStep(areas: map<string, string>, ids: set<string>, count: int, first: string, mixed: bool, id: string)
    requires SeenAll(areas, ids, count, first, mixed) && id !in ids
    ensures var (f, m) := Compared(areas, first, mixed, id);
            SeenAll(areas, ids + {id}, if id in areas then count + 1 else count, f, m)
  {
    CountStep(areas, ids, id);
    ComparedStep(areas, ids, first, mixed, id);
  }

  /** For every order of the map the same answer. */
  method RelayNeeded(groups: Table, users: map<string, Info>) returns (needed: bool)
    ensures needed <==> Needed(groups, users)
  {
    ghost var areas := Areas(groups, users);
    var count := 0;
    var first, mixed := "", false;
    var left := users.Keys;
    ghost var seen: set<string> := {};
    while left != {}
      invariant forall id :: id in seen <==> id in users && id !in left
      invariant forall id :: id in left ==> id in users
      invariant SeenAll(areas, seen, count, first, mixed)
      decreases |left|
    {
      var id :| id in left;
      LookStep(areas, seen, count, first, mixed, id);
      left, seen := left - {id}, seen + {id};
      var info := users[id];
      if !("relay_server" in info && info["relay_server"] == "1") {
        continue;
      }
      count := count + 1;
      var g := BestArea(groups, info);
      if g == "" {
        continue;
      }
      if first == "" {
        first := g;
      } else if g != first {
        mixed := true;
      }
    }
    assert seen == users.Keys;
    CountAll(areas, seen);
    return count >= MIN_USERS && mixed;
  }

  method BestArea(groups: Table, info: Info) returns (g: string)
    ensures g == Area(groups, info)
  {
    var best := BestRelayRegion(groups, info);
    g := if best in groups then groups[best] else "";
  }
}
