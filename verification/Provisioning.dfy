/** Starting and shutting down regional relays: updateRelays of pkg/lobby/relay_provision.go over the
    registry of pkg/lobby/relay_regions.go, first one tick, then every run. Times are nanoseconds. */
module Provisioning {
  import opened RelayRegions

  const START_RETRY: int := 600_000_000_000
  const IDLE_SHUTDOWN: int := 1_800_000_000_000

  class RegionalRelay {
    const region: string
    const publicAddr: string
    var activeSessions: int
    /** Whether shutdown is not nil. */
    var shutdown: bool
    /** How often it was called. */
    var asked: nat

    constructor (region: string, publicAddr: string, shutdown: bool)
      ensures this.region == region && this.publicAddr == publicAddr
      ensures activeSessions == 0 && this.shutdown == shutdown && asked == 0
    {
      this.region, this.publicAddr := region, publicAddr;
      activeSessions, this.shutdown, asked := 0, shutdown, 0;
    }
  }

  // ---- One tick -----------------------------------------------------------------------------

  /** A registered relay at one moment; armed is whether it can still be shut down. */
  datatype Reg = Reg(relay: RegionalRelay, sessions: int, armed: bool)

  datatype Prov = Prov(relays: map<string, Reg>, lastNeeded: map<string, int>, lastStart: map<string, int>)

  predicate Running(relays: map<string, Reg>, region: string) {
    exists a :: a in relays && relays[a].relay.region == region
  }

  /** Whether the tick notes the time for a region: whenever relays are needed, and once for a relay that
      was already running when nothing was noted yet. */
  predicate Notes(p: Prov, region: string, needed: bool) {
    needed || (region !in p.lastNeeded && Running(p.relays, region))
  }

  predicate Starts(p: Prov, region: string, needed: bool, now: int) {
    needed && !Running(p.relays, region)
    && (region in p.lastStart ==> now - p.lastStart[region] >= START_RETRY)
  }

  /** Whether a relay is shut down; lastNeeded as this tick left it. */
  predicate Stops(r: Reg, lastNeeded: map<string, int>, now: int) {
    && r.relay.region in lastNeeded && now - lastNeeded[r.relay.region] >= IDLE_SHUTDOWN
    && r.sessions == 0 && r.armed
  }

  function Noted(p: Prov, regions: set<string>, needed: bool, now: int): map<string, int> {
    p.lastNeeded + map r | r in regions && Notes(p, r, needed) :: now
  }

  function Started(p: Prov, regions: set<string>, needed: bool, now: int): set<string> {
    set r | r in regions && Starts(p, r, needed, now)
  }

  function StoppedOf(relays: map<string, Reg>, lastNeeded: map<string, int>, now: int): set<string> {
    set a | a in relays && Stops(relays[a], lastNeeded, now)
  }

  function Stopped(p: Prov, regions: set<string>, needed: bool, now: int): set<string> {
    StoppedOf(p.relays, Noted(p, regions, needed, now), now)
  }

  function LastStarts(p: Prov, regions: set<string>, needed: bool, now: int): map<string, int> {
    p.lastStart + map r | r in Started(p, regions, needed, now) :: now
  }

  /** A relay that is looked at by the last loop of a tick. */
  function Looked(r: Reg, lastNeeded: map<string, int>, now: int): Reg {
    if Stops(r, lastNeeded, now) then r.(armed := false) else r
  }

  function LookedAt(relays: map<string, Reg>, lastNeeded: map<string, int>, now: int): map<string, Reg> {
    map a | a in relays :: Looked(relays[a], lastNeeded, now)
  }

  function Tick(p: Prov, regions: set<string>, needed: bool, now: int): Prov {
    var lastNeeded := Noted(p, regions, needed, now);
    Prov(LookedAt(p.relays, lastNeeded, now), lastNeeded, LastStarts(p, regions, needed, now))
  }

  datatype Event =
    | Update(now: int, needed: bool)
    | Register(reg: Reg)
    | Unregister(publicAddr: string)
    | UnregisterIf(gone: RegionalRelay)
    | Report(reporter: RegionalRelay, sessions: int)

  /** What an event makes of the registry and the times noted. */
  function Apply(p: Prov, regions: set<string>, e: Event): Prov {
    match e
    case Update(now, needed) => Tick(p, regions, needed, now)
    case Register(reg) => p.(relays := p.relays[reg.relay.publicAddr := reg])
    case Unregister(addr) => p.(relays := Without(p.relays, addr))
    case UnregisterIf(r) =>
      if r.publicAddr in p.relays && p.relays[r.publicAddr].relay == r
      then p.(relays := Without(p.relays, r.publicAddr)) else p
    case Report(r, n) =>
      p.(relays := map a | a in p.relays ::
                     if p.relays[a].relay == r then p.relays[a].(sessions := n) else p.relays[a])
  }

  /** What the other events do to the relay at address a. */
  lemma EventsExactly(p: Prov, regions: set<string>, reg: Reg, addr: string, r: RegionalRelay, n: int, a: string)
    requires forall x :: x in p.relays ==> p.relays[x].relay.publicAddr == x
    ensures var q := Apply(p, regions, Register(reg)).relays;
            if a == reg.relay.publicAddr then a in q && q[a] == reg else SameAt(p.relays, q, a)
    ensures var q := Apply(p, regions, Unregister(addr)).relays; if a == addr then a !in q else SameAt(p.relays, q, a)
    ensures var q := Apply(p, regions, UnregisterIf(r)).relays;
            if a in p.relays && p.relays[a].relay == r then a !in q else SameAt(p.relays, q, a)
    ensures var q := Apply(p, regions, Report(r, n)).relays;
            if a in p.relays && p.relays[a].relay == r
            then a in q && q[a] == Reg(r, n, p.relays[a].armed) else SameAt(p.relays, q, a)
  {
  }

  predicate SameAt(p: map<string, Reg>, q: map<string, Reg>, a: string) {
    if a in p then a in q && q[a] == p[a] else a !in q
  }

  function SetOf(s: seq<string>): set<string> {
    set r | r in s
  }

  function Without<T>(m: map<string, T>, k: string): map<string, T> {
    map a | a in m && a != k :: m[a]
  }

  /** What a tick does for one region more, or for one it has already seen. */
  lemma NoteStep(p: Prov, done: set<string>, region: string, needed: bool, now: int)
    ensures var noted := Noted(p, done, needed, now);
            Noted(p, done + {region}, needed, now) ==
            if needed || (region !in noted && Running(p.relays, region)) then noted[region := now] else noted
  {
    var (noted, more) := (Noted(p, done, needed, now), Noted(p, done + {region}, needed, now));
    assert more.Keys == noted.Keys + if Notes(p, region, needed) then {region} else {};
  }

  predicate StartsNow(p: Prov, started: map<string, int>, region: string, needed: bool, now: int) {
    needed && !Running(p.relays, region) && (region in started ==> now - started[region] >= START_RETRY)
  }

  lemma StartStep(p: Prov, done: set<string>, region: string, needed: bool, now: int)
    ensures var starts := StartsNow(p, LastStarts(p, done, needed, now), region, needed, now);
            && (starts <==> region !in Started(p, done, needed, now) && Starts(p, region, needed, now))
            && Started(p, done + {region}, needed, now) ==
               Started(p, done, needed, now) + (if starts then {region} else {})
  {
    if region in Started(p, done, needed, now) {
      assert LastStarts(p, done, needed, now)[region] == now;
    } else {
      assert region in LastStarts(p, done, needed, now) ==>
          region in p.lastStart && LastStarts(p, done, needed, now)[region] == p.lastStart[region];
    }
  }

  lemma StartedMore(p: Prov, done: set<string>, region: string, needed: bool, now: int)
    ensures var (was, started) := (LastStarts(p, done, needed, now), LastStarts(p, done + {region}, needed, now));
            started == if StartsNow(p, was, region, needed, now) then was[region := now] else was
  {
    StartStep(p, done, region, needed, now);
    var (was, started) := (LastStarts(p, done, needed, now), LastStarts(p, done + {region}, needed, now));
    assert started.Keys == was.Keys + if StartsNow(p, was, region, needed, now) then {region} else {};
  }

  /** The loop over the regions after some of them. */
  predicate UpTo(p: Prov, done: set<string>, needed: bool, now: int, lastNeeded: map<string, int>,
                 lastStart: map<string, int>, started: seq<string>) {
    && lastNeeded == Noted(p, done, needed, now) && lastStart == LastStarts(p, done, needed, now)
    && SetOf(started) == Started(p, done, needed, now) && |started| == |SetOf(started)|
  }

  lemma NothingNoted(p: Prov, needed: bool, now: int)
    ensures UpTo(p, {}, needed, now, p.lastNeeded, p.lastStart, [])
  {
  }

  lemma NotingStep(p: Prov, done: set<string>, region: string, needed: bool, now: int, lastNeeded: map<string, int>,
                   lastStart: map<string, int>, started: seq<string>)
    requires UpTo(p, done, needed, now, lastNeeded, lastStart, started)
    ensures var notes := needed || (region !in lastNeeded && Running(p.relays, region));
            var starts := StartsNow(p, lastStart, region, needed, now);
            UpTo(p, done + {region}, needed, now, if notes then lastNeeded[region := now] else lastNeeded,
                 if starts then lastStart[region := now] else lastStart, if starts then started + [region] else started)
  {
    NoteStep(p, done, region, needed, now);
    StartStep(p, done, region, needed, now);
    StartedMore(p, done, region, needed, now);
    if StartsNow(p, lastStart, region, needed, now) {
      SetOfMore(started, region);
    }
  }

  function AskedMore(asked: nat, stops: bool): nat {
    if stops then asked + 1 else asked
  }

  class Relays {
    const groups: Table
    const regions: seq<string>
    var byAddr: map<string, RegionalRelay>
    var lastNeeded: map<string, int>
    var lastStart: map<string, int>

    constructor (groups: Table, regions: seq<string>)
      ensures this.groups == groups && this.regions == regions && Valid()
      ensures View() == Prov(map[], map[], map[])
    {
      this.groups, this.regions := groups, regions;
      byAddr, lastNeeded, lastStart := map[], map[], map[];
    }

    /** A relay is registered under its own address. */
    predicate Valid()
      reads this
    {
      forall a :: a in byAddr ==> byAddr[a].publicAddr == a
    }

    ghost function RegOf(r: RegionalRelay): Reg
      reads r
    {
      Reg(r, r.activeSessions, r.shutdown)
    }

    ghost function Regs(): map<string, Reg>
      reads this`byAddr, byAddr.Values
    {
      map a | a in byAddr :: RegOf(byAddr[a])
    }

    ghost function View(): Prov
      reads this, byAddr.Values
    {
      Prov(Regs(), lastNeeded, lastStart)
    }

    method RegisterRelay(r: RegionalRelay)
      requires Valid()
      modifies this`byAddr
      ensures Valid()
      ensures View() == Apply(old(View()), SetOf(regions), Register(RegOf(r)))
    {
      byAddr := byAddr[r.publicAddr := r];
    }

    method UnregisterRelay(publicAddr: string)
      requires Valid()
      modifies this`byAddr
      ensures Valid()
      ensures View() == Apply(old(View()), SetOf(regions), Unregister(publicAddr))
    {
      byAddr := byAddr - {publicAddr};
    }

    /** Only the relay itself is removed, not one that has replaced it. */
    method UnregisterRelayIf(r: RegionalRelay)
      requires Valid()
      modifies this`byAddr
      ensures Valid()
      ensures View() == Apply(old(View()), SetOf(regions), UnregisterIf(r))
    {
      if r.publicAddr in byAddr && byAddr[r.publicAddr] == r {
        byAddr := byAddr - {r.publicAddr};
      }
    }

    method SetActiveSessions(r: RegionalRelay, sessions: int)
      requires Valid()
      modifies r`activeSessions
      ensures View() == Apply(old(View()), SetOf(regions), Report(r, sessions))
    {
      r.activeSessions := sessions;
    }

    /** The regions with a relay, for every order of the map. */
    method FindRunning() returns (running: set<string>)
      ensures forall region :: region in running <==> Running(Regs(), region)
    {
      running := {};
      var left := byAddr.Keys;
      while left != {}
        invariant left <= byAddr.Keys
        invariant forall region :: region in running <==>
                                   exists a :: a in byAddr && a !in left && byAddr[a].region == region
        decreases |left|
      {
        var a :| a in left;
        left := left - {a};
        running := running + {byAddr[a].region};
      }
      forall region ensures region in running <==> Running(Regs(), region) {
        if a :| a in byAddr && byAddr[a].region == region {
          assert Regs()[a].relay.region == region;
        }
      }
    }

    /** Notes the needs and starts the relays; each region is started once even if it is listed twice. */
    method NoteAndStart(ghost p: Prov, now: int, needed: bool, running: set<string>) returns (started: seq<string>)
      requires p.lastNeeded == lastNeeded && p.lastStart == lastStart
      requires forall region :: region in running <==> Running(p.relays, region)
      modifies this`lastNeeded, this`lastStart
      ensures UpTo(p, SetOf(regions), needed, now, lastNeeded, lastStart, started)
    {
      started := [];
      ghost var done := {};
      NothingNoted(p, needed, now);
      for i := 0 to |regions|
        invariant done == SetOf(regions[..i])
        invariant UpTo(p, done, needed, now, lastNeeded, lastStart, started)
      {
        var region := regions[i];
        NotingStep(p, done, region, needed, now, lastNeeded, lastStart, started);
        SetOfPrefix(regions, i);
        done := done + {region};
        if needed {
          lastNeeded := lastNeeded[region := now];
        } else if region !in lastNeeded && region in running {
          lastNeeded := lastNeeded[region := now];
        }
        if needed && region !in running && (region in lastStart ==> now - lastStart[region] >= START_RETRY) {
          lastStart := lastStart[region := now];
          started := started + [region];
        }
      }
      assert regions[..|regions|] == regions;
    }

    /** Shuts down the idle relays, for every order of the map. */
    method ShutDownIdle(now: int)
      requires Valid()
      modifies byAddr.Values
      ensures Regs() == LookedAt(old(Regs()), lastNeeded, now)
      ensures forall a :: a in byAddr ==>
                byAddr[a].asked == AskedMore(old(byAddr[a].asked), a in StoppedOf(old(Regs()), lastNeeded, now))
    {
      var left := byAddr.Keys;
      while left != {}
        invariant left <= byAddr.Keys
        invariant forall a :: a in left ==> Untouched(byAddr[a])
        invariant forall a :: a in byAddr && a !in left ==> LookedOnce(byAddr[a], now)
        decreases |left|
      {
        var a :| a in left;
        left := left - {a};
        LookAt(byAddr[a], now);
      }
    }

    twostate predicate Untouched(r: RegionalRelay)
      reads r
    {
      RegOf(r) == old(RegOf(r)) && r.asked == old(r.asked)
    }

    twostate predicate LookedOnce(r: RegionalRelay, now: int)
      reads this, r
    {
      && RegOf(r) == Looked(old(RegOf(r)), lastNeeded, now)
      && r.asked == AskedMore(old(r.asked), Stops(old(RegOf(r)), lastNeeded, now))
    }

    /** One round of the loop. */
    method LookAt(r: RegionalRelay, now: int)
      modifies r`asked, r`shutdown
      ensures LookedOnce(r, now)
    {
      if r.region !in lastNeeded || now - lastNeeded[r.region] < IDLE_SHUTDOWN || r.activeSessions != 0
          || !r.shutdown {
        return;
      }
      r.asked := r.asked + 1;
      r.shutdown := false;
    }

    /** A tick; started is what was asked of the provisioner. */
    method UpdateRelays(now: int, users: map<string, Info>) returns (started: seq<string>)
      requires Valid()
      modifies this`lastNeeded, this`lastStart, byAddr.Values
      ensures View() == Apply(old(View()), SetOf(regions), Update(now, Needed(groups, users)))
      ensures SetOf(started) == Started(old(View()), SetOf(regions), Needed(groups, users), now)
      ensures |started| == |SetOf(started)|
      ensures forall a :: a in byAddr ==> byAddr[a].asked == AskedMore(
                old(byAddr[a].asked), a in Stopped(old(View()), SetOf(regions), Needed(groups, users), now))
    {
      var needed := RelayNeeded(groups, users);
      started := UpdateAs(needed, now);
    }

    method UpdateAs(needed: bool, now: int) returns (started: seq<string>)
      requires Valid()
      modifies this`lastNeeded, this`lastStart, byAddr.Values
      ensures UpTo(old(View()), SetOf(regions), needed, now, lastNeeded, lastStart, started)
      ensures Regs() == LookedAt(old(Regs()), lastNeeded, now)
      ensures forall a :: a in byAddr ==>
                byAddr[a].asked == AskedMore(old(byAddr[a].asked), a in StoppedOf(old(Regs()), lastNeeded, now))
    {
      ghost var p := View();
      var running := FindRunning();
      started := NoteAndStart(p, now, needed, running);
      assert Regs() == p.relays;
      ShutDownIdle(now);
    }
  }

  lemma SetOfPrefix(s: seq<string>, i: nat)
    requires i < |s|
    ensures SetOf(s[..i + 1]) == SetOf(s[..i]) + {s[i]}
  {
    assert s[..i + 1] == s[..i] + [s[i]];
  }

  lemma SetOfMore(s: seq<string>, x: string)
    requires x !in SetOf(s)
    ensures SetOf(s + [x]) == SetOf(s) + {x}
    ensures |SetOf(s + [x])| == |SetOf(s)| + 1
  {
    assert SetOf(s + [x]) == SetOf(s) + {x};
  }

  // ---- Runs ---------------------------------------------------------------------------------

  /** An update that was made, and the state it started from. */
  datatype Made = Made(now: int, needed: bool, before: Prov)

  /** The provisioning with every relay ever registered and every update made. */
  datatype World = World(p: Prov, seen: set<RegionalRelay>, log: seq<Made>)

  const START: World := World(Prov(map[], map[], map[]), {}, [])

  /** Time does not run backwards, and a relay is registered only once. */
  predicate Enabled(w: World, e: Event) {
    match e
    case Update(now, _) => w.log == [] || w.log[|w.log| - 1].now <= now
    case Register(reg) => reg.relay !in w.seen
    case _ => true
  }

  function Do(w: World, regions: set<string>, e: Event): World {
    World(Apply(w.p, regions, e),
          if e.Register? then w.seen + {e.reg.relay} else w.seen,
          if e.Update? then w.log + [Made(e.now, e.needed, w.p)] else w.log)
  }

  predicate StartedIn(m: Made, regions: set<string>, region: string) {
    region in Started(m.before, regions, m.needed, m.now)
  }

  /** The addresses of the relays an update shut down. */
  function StoppedIn(m: Made, regions: set<string>): set<string> {
    Stopped(m.before, regions, m.needed, m.now)
  }

  // ---- What holds in every run --------------------------------------------------------------

  /** The log is in order of time. */
  predicate Ordered(w: World) {
    forall i, j :: 0 <= i < j < |w.log| ==> w.log[i].now <= w.log[j].now
  }

  /** Every start and every need is noted with its time or a later one. */
  ghost predicate StartsNoted(w: World, regions: set<string>) {
    forall i, r :: 0 <= i < |w.log| && StartedIn(w.log[i], regions, r) ==>
      r in w.p.lastStart && w.p.lastStart[r] >= w.log[i].now
  }

  ghost predicate NeedsNoted(w: World, regions: set<string>) {
    && w.p.lastNeeded.Keys <= regions
    && forall i, r :: 0 <= i < |w.log| && w.log[i].needed && r in regions ==>
         r in w.p.lastNeeded && w.p.lastNeeded[r] >= w.log[i].now
  }

  /** Only managed regions that were needed or had a relay running have a time noted. */
  ghost predicate NotesHaveReason(w: World, regions: set<string>) {
    forall r :: r in w.p.lastNeeded ==> exists i :: 0 <= i < |w.log| && Reason(w.log[i], r, w.p.lastNeeded[r])
  }

  predicate Reason(m: Made, region: string, at: int) {
    m.now == at && (m.needed || Running(m.before.relays, region))
  }

  /** A relay is at one address at most, and was seen. */
  predicate AreSeen(w: World) {
    && (forall a :: a in w.p.relays ==> w.p.relays[a].relay in w.seen)
    && (forall a, b :: a in w.p.relays && b in w.p.relays && w.p.relays[a].relay == w.p.relays[b].relay ==> a == b)
  }

  /** A relay that was shut down cannot be again. */
  ghost predicate StoppedAreDisarmed(w: World, regions: set<string>) {
    forall i, a :: 0 <= i < |w.log| && a in StoppedIn(w.log[i], regions) ==>
      w.log[i].before.relays[a].relay in w.seen && Disarmed(w.p.relays, w.log[i].before.relays[a].relay)
  }

  predicate Disarmed(relays: map<string, Reg>, relay: RegionalRelay) {
    forall a :: a in relays && relays[a].relay == relay ==> !relays[a].armed
  }

  ghost predicate Inv(w: World, regions: set<string>) {
    && Ordered(w) && AreSeen(w)
    && StartsNoted(w, regions) && NeedsNoted(w, regions) && NotesHaveReason(w, regions)
    && StoppedAreDisarmed(w, regions) && Safe(w.log, regions)
  }

  // ---- The promises -------------------------------------------------------------------------

  /** Two starts of a region are ten minutes apart. */
  ghost predicate StartsApart(log: seq<Made>, regions: set<string>) {
    forall i, j, r :: 0 <= i < j < |log| && StartedIn(log[i], regions, r) && StartedIn(log[j], regions, r) ==>
      log[j].now - log[i].now >= 600_000_000_000
  }

  /** A relay is shut down at most once. */
  ghost predicate StopsOnce(log: seq<Made>, regions: set<string>) {
    forall i, j, a, b :: 0 <= i < j < |log| && a in StoppedIn(log[i], regions) && b in StoppedIn(log[j], regions) ==>
      log[i].before.relays[a].relay != log[j].before.relays[b].relay
  }

  /** A relay is shut down only without sessions and in a managed region, after half an hour in which no
      update found relays needed, and which began with an update that did or that found one running. */
  ghost predicate StopsWhenIdle(log: seq<Made>, regions: set<string>) {
    forall j, a :: 0 <= j < |log| && a in StoppedIn(log[j], regions) ==>
      WasIdle(log, regions, j, log[j].before.relays[a])
  }

  ghost predicate WasIdle(log: seq<Made>, regions: set<string>, j: nat, r: Reg)
    requires j < |log|
  {
    && r.sessions == 0 && r.relay.region in regions && NotNeededFor(log, j)
    && exists i :: 0 <= i <= j && Reason(log[i], r.relay.region, log[i].now)
                   && log[j].now - log[i].now >= 1_800_000_000_000
  }

  predicate NotNeededFor(log: seq<Made>, j: nat)
    requires j < |log|
  {
    forall i :: 0 <= i <= j && log[i].needed ==> log[j].now - log[i].now >= 1_800_000_000_000
  }

  ghost predicate Safe(log: seq<Made>, regions: set<string>) {
    StartsApart(log, regions) && StopsOnce(log, regions) && StopsWhenIdle(log, regions)
  }

  // ---- Proof --------------------------------------------------------------------------------

  lemma UpdateKeepsOrder(w: World, regions: set<string>, now: int, needed: bool)
    requires Ordered(w) && Enabled(w, Update(now, needed))
    ensures Ordered(Do(w, regions, Update(now, needed)))
    ensures forall i :: 0 <= i < |w.log| ==> w.log[i].now <= now
  {
  }

  lemma UpdateNotesStarts(w: World, regions: set<string>, now: int, needed: bool)
    requires Inv(w, regions) && Enabled(w, Update(now, needed))
    ensures StartsNoted(Do(w, regions, Update(now, needed)), regions)
  {
    UpdateKeepsOrder(w, regions, now, needed);
    var v := Do(w, regions, Update(now, needed));
    forall i, r | 0 <= i < |v.log| && StartedIn(v.log[i], regions, r)
      ensures r in v.p.lastStart && v.p.lastStart[r] >= v.log[i].now
    {
      if i < |w.log| {
        assert v.log[i] == w.log[i];
      }
    }
  }

  lemma UpdateSpacesStarts(w: World, regions: set<string>, now: int, needed: bool)
    requires Inv(w, regions) && Enabled(w, Update(now, needed))
    ensures StartsApart(Do(w, regions, Update(now, needed)).log, regions)
  {
    var log := Do(w, regions, Update(now, needed)).log;
    var n := |w.log|;
    assert log[..n] == w.log && log[n] == Made(now, needed, w.p);
    forall i, j, r | 0 <= i < j < |log| && StartedIn(log[i], regions, r) && StartedIn(log[j], regions, r)
      ensures log[j].now - log[i].now >= START_RETRY
    {
      assert StartedIn(w.log[i], regions, r);
      if j < n {
        assert log[j] == w.log[j];
      } else {
        assert Starts(w.p, r, needed, now);
      }
    }
  }

  lemma UpdateKeepsNeeds(w: World, regions: set<string>, now: int, needed: bool)
    requires Inv(w, regions) && Enabled(w, Update(now, needed))
    ensures var v := Do(w, regions, Update(now, needed));
            NeedsNoted(v, regions) && NotesHaveReason(v, regions)
  {
    UpdateKeepsOrder(w, regions, now, needed);
    UpdateNotesNeeds(w, regions, now, needed);
    UpdateNotesReasons(w, regions, now, needed);
  }

  lemma UpdateNotesNeeds(w: World, regions: set<string>, now: int, needed: bool)
    requires NeedsNoted(w, regions) && forall i :: 0 <= i < |w.log| ==> w.log[i].now <= now
    ensures NeedsNoted(Do(w, regions, Update(now, needed)), regions)
  {
    var v := Do(w, regions, Update(now, needed));
    forall i, r | 0 <= i < |v.log| && v.log[i].needed && r in regions
      ensures r in v.p.lastNeeded && v.p.lastNeeded[r] >= v.log[i].now
    {
      if i < |w.log| {
        assert v.log[i] == w.log[i];
      }
    }
  }

  lemma UpdateNotesReasons(w: World, regions: set<string>, now: int, needed: bool)
    requires NotesHaveReason(w, regions)
    ensures NotesHaveReason(Do(w, regions, Update(now, needed)), regions)
  {
    var v := Do(w, regions, Update(now, needed));
    var n := |w.log|;
    forall r | r in v.p.lastNeeded
      ensures exists i :: 0 <= i < |v.log| && Reason(v.log[i], r, v.p.lastNeeded[r])
    {
      if r in regions && Notes(w.p, r, needed) {
        assert Reason(v.log[n], r, now);
      } else {
        var i :| 0 <= i < n && Reason(w.log[i], r, w.p.lastNeeded[r]);
        assert v.log[i] == w.log[i];
      }
    }
  }

  lemma UpdateDisarms(w: World, regions: set<string>, now: int, needed: bool)
    requires AreSeen(w) && StoppedAreDisarmed(w, regions)
    ensures var v := Do(w, regions, Update(now, needed)); AreSeen(v) && StoppedAreDisarmed(v, regions)
  {
    var v := Do(w, regions, Update(now, needed));
    forall i, a | 0 <= i < |v.log| && a in StoppedIn(v.log[i], regions)
      ensures v.log[i].before.relays[a].relay in v.seen && Disarmed(v.p.relays, v.log[i].before.relays[a].relay)
    {
      if i < |w.log| {
        assert v.log[i] == w.log[i];
        assert Disarmed(w.p.relays, w.log[i].before.relays[a].relay);
      }
    }
  }

  lemma UpdateStopsOnce(w: World, regions: set<string>, now: int, needed: bool)
    requires StopsOnce(w.log, regions) && StoppedAreDisarmed(w, regions)
    ensures StopsOnce(Do(w, regions, Update(now, needed)).log, regions)
  {
    var log := Do(w, regions, Update(now, needed)).log;
    forall i, j, a, b | 0 <= i < j < |log| && a in StoppedIn(log[i], regions) && b in StoppedIn(log[j], regions)
      ensures log[i].before.relays[a].relay != log[j].before.relays[b].relay
    {
      assert log[i] == w.log[i];
      if j < |w.log| {
        assert log[j] == w.log[j];
      } else {
        assert Disarmed(w.p.relays, w.log[i].before.relays[a].relay);
      }
    }
  }

  lemma UpdateStopsWhenIdle(w: World, regions: set<string>, now: int, needed: bool)
    requires StopsWhenIdle(w.log, regions)
    requires var v := Do(w, regions, Update(now, needed)); NeedsNoted(v, regions) && NotesHaveReason(v, regions)
    ensures StopsWhenIdle(Do(w, regions, Update(now, needed)).log, regions)
  {
    var log := Do(w, regions, Update(now, needed)).log;
    forall j, a | 0 <= j < |log| && a in StoppedIn(log[j], regions)
      ensures WasIdle(log, regions, j, log[j].before.relays[a])
    {
      IdleAt(w, regions, now, needed, j, a);
    }
  }

  lemma IdleAt(w: World, regions: set<string>, now: int, needed: bool, j: nat, a: string)
    requires StopsWhenIdle(w.log, regions)
    requires var v := Do(w, regions, Update(now, needed)); NeedsNoted(v, regions) && NotesHaveReason(v, regions)
    requires j <= |w.log| && a in StoppedIn((w.log + [Made(now, needed, w.p)])[j], regions)
    ensures var log := w.log + [Made(now, needed, w.p)]; WasIdle(log, regions, j, log[j].before.relays[a])
  {
    if j < |w.log| {
      IdleStays(w.log, Made(now, needed, w.p), regions, j, w.log[j].before.relays[a]);
    } else {
      IdleNow(Do(w, regions, Update(now, needed)), regions, w.p.relays[a]);
    }
  }

  lemma IdleStays(log: seq<Made>, m: Made, regions: set<string>, j: nat, r: Reg)
    requires j < |log| && WasIdle(log, regions, j, r)
    ensures WasIdle(log + [m], regions, j, r)
  {
    var more := log + [m];
    assert more[..|log|] == log;
    var i :| 0 <= i <= j && Reason(log[i], r.relay.region, log[i].now) && log[j].now - log[i].now >= IDLE_SHUTDOWN;
    assert more[i] == log[i];
    forall i | 0 <= i <= j && more[i].needed ensures more[j].now - more[i].now >= IDLE_SHUTDOWN {
      assert more[i] == log[i];
    }
  }

  lemma IdleNow(w: World, regions: set<string>, r: Reg)
    requires NeedsNoted(w, regions) && NotesHaveReason(w, regions) && w.log != []
    requires Stops(r, w.p.lastNeeded, w.log[|w.log| - 1].now)
    ensures WasIdle(w.log, regions, |w.log| - 1, r)
  {
    var i :| 0 <= i < |w.log| && Reason(w.log[i], r.relay.region, w.p.lastNeeded[r.relay.region]);
    assert NotNeededFor(w.log, |w.log| - 1);
  }

  lemma OthersKeepInv(w: World, regions: set<string>, e: Event)
    requires Inv(w, regions) && Enabled(w, e) && !e.Update?
    ensures Inv(Do(w, regions, e), regions)
  {
    OthersKeepSeen(w, regions, e);
    OthersKeepDisarmed(w, regions, e);
    var w1 := Do(w, regions, e);
    assert w1.log == w.log && w1.p.lastStart == w.p.lastStart && w1.p.lastNeeded == w.p.lastNeeded;
  }

  lemma OthersKeepSeen(w: World, regions: set<string>, e: Event)
    requires AreSeen(w) && Enabled(w, e) && !e.Update?
    ensures AreSeen(Do(w, regions, e))
  {
  }

  lemma OthersKeepDisarmed(w: World, regions: set<string>, e: Event)
    requires AreSeen(w) && StoppedAreDisarmed(w, regions) && Enabled(w, e) && !e.Update?
    ensures StoppedAreDisarmed(Do(w, regions, e), regions)
  {
    forall i, a | 0 <= i < |w.log| && a in StoppedIn(w.log[i], regions)
      ensures Disarmed(Do(w, regions, e).p.relays, w.log[i].before.relays[a].relay)
    {
      StaysDisarmed(w, regions, e, w.log[i].before.relays[a].relay);
    }
  }

  lemma StaysDisarmed(w: World, regions: set<string>, e: Event, relay: RegionalRelay)
    requires Enabled(w, e) && !e.Update? && relay in w.seen && Disarmed(w.p.relays, relay)
    ensures Disarmed(Do(w, regions, e).p.relays, relay)
  {
  }

  lemma DoKeepsInv(w: World, regions: set<string>, e: Event)
    requires Inv(w, regions) && Enabled(w, e)
    ensures Inv(Do(w, regions, e), regions)
  {
    match e
    case Update(now, needed) =>
      UpdateKeepsOrder(w, regions, now, needed);
      UpdateNotesStarts(w, regions, now, needed);
      UpdateSpacesStarts(w, regions, now, needed);
      UpdateKeepsNeeds(w, regions, now, needed);
      UpdateDisarms(w, regions, now, needed);
      UpdateStopsOnce(w, regions, now, needed);
      UpdateStopsWhenIdle(w, regions, now, needed);
    case _ =>
      OthersKeepInv(w, regions, e);
  }

  predicate CanRun(w: World, regions: set<string>, events: seq<Event>)
    decreases |events|
  {
    events == [] || (Enabled(w, events[0]) && CanRun(Do(w, regions, events[0]), regions, events[1..]))
  }

  function Run(w: World, regions: set<string>, events: seq<Event>): World
    decreases |events|
  {
    if events == [] then w else Run(Do(w, regions, events[0]), regions, events[1..])
  }

  lemma {:induction false} RunKeepsInv(w: World, regions: set<string>, events: seq<Event>)
    requires Inv(w, regions) && CanRun(w, regions, events)
    ensures Inv(Run(w, regions, events), regions)
    decreases |events|
  {
    if events != [] {
      DoKeepsInv(w, regions, events[0]);
      RunKeepsInv(Do(w, regions, events[0]), regions, events[1..]);
    }
  }

  /** In every run starts are spaced, and only idle relays are shut down, once. */
  lemma RunIsSafe(regions: set<string>, events: seq<Event>)
    requires CanRun(START, regions, events)
    ensures Safe(Run(START, regions, events).log, regions)
  {
    RunKeepsInv(START, regions, events);
  }

  // ---- When an update must act --------------------------------------------------------------

  /** Relays were needed at time t. */
  predicate NeededAt(log: seq<Made>, t: int) {
    exists k :: 0 <= k < |log| && log[k].needed && log[k].now == t
  }

  /** A start that is noted was made then, and a noted time is the first reason's or one at which relays were
      needed. */
  ghost predicate Recorded(w: World, regions: set<string>) {
    LastStartsMade(w, regions) && FirstNotesKept(w, regions)
  }

  ghost predicate LastStartsMade(w: World, regions: set<string>) {
    forall r :: r in w.p.lastStart ==>
      exists i :: 0 <= i < |w.log| && StartedIn(w.log[i], regions, r) && w.log[i].now == w.p.lastStart[r]
  }

  ghost predicate FirstNotesKept(w: World, regions: set<string>) {
    forall i, r :: 0 <= i < |w.log| && r in regions && Reason(w.log[i], r, w.log[i].now) ==>
      NotedFrom(w, r, w.log[i].now)
  }

  predicate NotedFrom(w: World, r: string, at: int) {
    r in w.p.lastNeeded && (w.p.lastNeeded[r] <= at || NeededAt(w.log, w.p.lastNeeded[r]))
  }

  lemma UpdateMakesLastStarts(w: World, regions: set<string>, now: int, needed: bool)
    requires LastStartsMade(w, regions)
    ensures LastStartsMade(Do(w, regions, Update(now, needed)), regions)
  {
    var v := Do(w, regions, Update(now, needed));
    var n := |w.log|;
    forall r | r in v.p.lastStart
      ensures exists i :: 0 <= i < |v.log| && StartedIn(v.log[i], regions, r) && v.log[i].now == v.p.lastStart[r]
    {
      if r in Started(w.p, regions, needed, now) {
        assert StartedIn(v.log[n], regions, r);
      } else {
        var i :| 0 <= i < n && StartedIn(w.log[i], regions, r) && w.log[i].now == w.p.lastStart[r];
        assert v.log[i] == w.log[i];
      }
    }
  }

  lemma UpdateKeepsFirstNotes(w: World, regions: set<string>, now: int, needed: bool)
    requires Inv(w, regions) && FirstNotesKept(w, regions) && Enabled(w, Update(now, needed))
    ensures FirstNotesKept(Do(w, regions, Update(now, needed)), regions)
  {
    UpdateKeepsOrder(w, regions, now, needed);
    var v := Do(w, regions, Update(now, needed));
    forall i, r | 0 <= i < |v.log| && r in regions && Reason(v.log[i], r, v.log[i].now)
      ensures NotedFrom(v, r, v.log[i].now)
    {
      NoteKept(w, regions, now, needed, i, r);
    }
  }

  lemma NoteKept(w: World, regions: set<string>, now: int, needed: bool, i: nat, r: string)
    requires Inv(w, regions) && FirstNotesKept(w, regions)
    requires forall k :: 0 <= k < |w.log| ==> w.log[k].now <= now
    requires var v := Do(w, regions, Update(now, needed));
             i < |v.log| && r in regions && Reason(v.log[i], r, v.log[i].now)
    ensures var v := Do(w, regions, Update(now, needed)); NotedFrom(v, r, v.log[i].now)
  {
    var v := Do(w, regions, Update(now, needed));
    var n := |w.log|;
    if i < n {
      assert Reason(w.log[i], r, w.log[i].now);
    }
    if needed {
      assert v.log[n].needed && v.log[n].now == v.p.lastNeeded[r];
    } else if i < n {
      if NeededAt(w.log, w.p.lastNeeded[r]) {
        var k :| 0 <= k < n && w.log[k].needed && w.log[k].now == w.p.lastNeeded[r];
        assert v.log[k] == w.log[k];
      }
    } else if r in w.p.lastNeeded {
      var k :| 0 <= k < n && Reason(w.log[k], r, w.p.lastNeeded[r]);
    }
  }

  lemma DoKeepsRecorded(w: World, regions: set<string>, e: Event)
    requires Inv(w, regions) && Recorded(w, regions) && Enabled(w, e)
    ensures Recorded(Do(w, regions, e), regions)
  {
    if e.Update? {
      UpdateMakesLastStarts(w, regions, e.now, e.needed);
      UpdateKeepsFirstNotes(w, regions, e.now, e.needed);
    } else {
      SameRecords(w, Do(w, regions, e), regions);
    }
  }

  lemma SameRecords(w: World, w1: World, regions: set<string>)
    requires Recorded(w, regions)
    requires (w1.log, w1.p.lastStart, w1.p.lastNeeded) == (w.log, w.p.lastStart, w.p.lastNeeded)
    ensures Recorded(w1, regions)
  {
    forall i, r | 0 <= i < |w1.log| && r in regions && Reason(w1.log[i], r, w1.log[i].now)
      ensures NotedFrom(w1, r, w1.log[i].now)
    {
      assert NotedFrom(w, r, w.log[i].now);
    }
  }

  /** A start is due: relays are needed, none is registered in the region, and none was started there in the
      last ten minutes. */
  predicate StartDue(log: seq<Made>, regions: set<string>, j: nat, r: string)
    requires j < |log|
  {
    && r in regions && log[j].needed
    && (forall a :: a in log[j].before.relays ==> log[j].before.relays[a].relay.region != r)
    && forall i :: 0 <= i < j && StartedIn(log[i], regions, r) ==> log[j].now - log[i].now >= 600_000_000_000
  }

  /** A shutdown is due: the relay can be shut down and was idle for half an hour. */
  ghost predicate StopDue(log: seq<Made>, regions: set<string>, j: nat, a: string)
    requires j < |log|
  {
    var relays := log[j].before.relays;
    a in relays && relays[a].armed && WasIdle(log, regions, j, relays[a])
  }

  /** An update did what was due and nothing else. */
  ghost predicate ActedExactly(log: seq<Made>, regions: set<string>, j: nat)
    requires j < |log|
  {
    && (forall r :: StartedIn(log[j], regions, r) <==> StartDue(log, regions, j, r))
    && (forall a :: a in StoppedIn(log[j], regions) <==> StopDue(log, regions, j, a))
  }

  lemma StartsWhenDue(w: World, regions: set<string>, now: int, needed: bool, r: string)
    requires Inv(w, regions) && Recorded(w, regions) && Enabled(w, Update(now, needed))
    ensures var (log, n) := (w.log + [Made(now, needed, w.p)], |w.log|);
            StartedIn(log[n], regions, r) <==> StartDue(log, regions, n, r)
  {
    var (log, n) := (w.log + [Made(now, needed, w.p)], |w.log|);
    forall i | 0 <= i < n ensures log[i] == w.log[i] {
    }
    if StartDue(log, regions, n, r) && r in w.p.lastStart {
      var i :| 0 <= i < n && StartedIn(w.log[i], regions, r) && w.log[i].now == w.p.lastStart[r];
      assert StartedIn(log[i], regions, r);
    }
  }

  lemma StopIsDue(w: World, regions: set<string>, now: int, needed: bool, a: string)
    requires Inv(w, regions) && Enabled(w, Update(now, needed)) && a in Stopped(w.p, regions, needed, now)
    ensures StopDue(w.log + [Made(now, needed, w.p)], regions, |w.log|, a)
  {
    UpdateKeepsOrder(w, regions, now, needed);
    UpdateKeepsNeeds(w, regions, now, needed);
    IdleAt(w, regions, now, needed, |w.log|, a);
  }

  lemma DueStops(w: World, regions: set<string>, now: int, needed: bool, a: string)
    requires FirstNotesKept(w, regions) && StopDue(w.log + [Made(now, needed, w.p)], regions, |w.log|, a)
    ensures a in Stopped(w.p, regions, needed, now)
  {
    var (log, n) := (w.log + [Made(now, needed, w.p)], |w.log|);
    var r := w.p.relays[a].relay.region;
    var i :| 0 <= i <= n && Reason(log[i], r, log[i].now) && now - log[i].now >= 1_800_000_000_000;
    assert !log[n].needed;
    assert i < n && log[i] == w.log[i];
    assert NotedFrom(w, r, w.log[i].now);
    NotNeededBefore(w.log, log[n]);
    IdleSince(w, regions, now, r, w.log[i].now);
  }

  lemma NotNeededBefore(log: seq<Made>, m: Made)
    requires NotNeededFor(log + [m], |log|)
    ensures forall k :: 0 <= k < |log| && log[k].needed ==> m.now - log[k].now >= 1_800_000_000_000
  {
    var more := log + [m];
    forall k | 0 <= k < |log| && log[k].needed ensures m.now - log[k].now >= 1_800_000_000_000 {
      assert more[k] == log[k];
    }
  }

  lemma IdleSince(w: World, regions: set<string>, now: int, r: string, at: int)
    requires NotedFrom(w, r, at) && now - at >= 1_800_000_000_000
    requires forall k :: 0 <= k < |w.log| && w.log[k].needed ==> now - w.log[k].now >= 1_800_000_000_000
    ensures now - w.p.lastNeeded[r] >= 1_800_000_000_000
  {
  }

  /** Later updates do not change what was due. */
  lemma DueStays(log: seq<Made>, m: Made, regions: set<string>, j: nat)
    requires j < |log| && ActedExactly(log, regions, j)
    ensures ActedExactly(log + [m], regions, j)
  {
    var more := log + [m];
    assert forall i :: 0 <= i < |log| ==> more[i] == log[i];
    forall r ensures StartedIn(more[j], regions, r) <==> StartDue(more, regions, j, r) {
      assert StartDue(more, regions, j, r) <==> StartDue(log, regions, j, r);
    }
    forall a ensures a in StoppedIn(more[j], regions) <==> StopDue(more, regions, j, a) {
      if a in log[j].before.relays {
        IdleSame(log, m, regions, j, log[j].before.relays[a]);
      }
    }
  }

  lemma IdleSame(log: seq<Made>, m: Made, regions: set<string>, j: nat, r: Reg)
    requires j < |log|
    ensures WasIdle(log + [m], regions, j, r) <==> WasIdle(log, regions, j, r)
  {
    var more := log + [m];
    assert forall i :: 0 <= i < |log| ==> more[i] == log[i];
    if WasIdle(log, regions, j, r) {
      IdleStays(log, m, regions, j, r);
    }
    if WasIdle(more, regions, j, r) {
      var i :| 0 <= i <= j && Reason(more[i], r.relay.region, more[i].now)
               && more[j].now - more[i].now >= 1_800_000_000_000;
      assert Reason(log[i], r.relay.region, log[i].now);
      forall i | 0 <= i <= j && log[i].needed ensures log[j].now - log[i].now >= 1_800_000_000_000 {
        assert more[i].needed;
      }
    }
  }

  ghost predicate AllExact(log: seq<Made>, regions: set<string>) {
    forall j :: 0 <= j < |log| ==> ActedExactly(log, regions, j)
  }

  lemma UpdateIsExact(w: World, regions: set<string>, now: int, needed: bool)
    requires Inv(w, regions) && Recorded(w, regions) && Enabled(w, Update(now, needed))
    ensures ActedExactly(w.log + [Made(now, needed, w.p)], regions, |w.log|)
  {
    var (log, n) := (w.log + [Made(now, needed, w.p)], |w.log|);
    forall r ensures StartedIn(log[n], regions, r) <==> StartDue(log, regions, n, r) {
      StartsWhenDue(w, regions, now, needed, r);
    }
    forall a ensures a in StoppedIn(log[n], regions) <==> StopDue(log, regions, n, a) {
      if a in Stopped(w.p, regions, needed, now) {
        StopIsDue(w, regions, now, needed, a);
      }
      if StopDue(log, regions, n, a) {
        DueStops(w, regions, now, needed, a);
      }
    }
  }

  lemma OneMoreExact(log: seq<Made>, m: Made, regions: set<string>)
    requires AllExact(log, regions) && ActedExactly(log + [m], regions, |log|)
    ensures AllExact(log + [m], regions)
  {
    forall j | 0 <= j < |log + [m]| ensures ActedExactly(log + [m], regions, j) {
      if j < |log| {
        DueStays(log, m, regions, j);
      }
    }
  }

  lemma DoIsExact(w: World, regions: set<string>, e: Event)
    requires Inv(w, regions) && Recorded(w, regions) && AllExact(w.log, regions) && Enabled(w, e)
    ensures AllExact(Do(w, regions, e).log, regions)
  {
    if e.Update? {
      UpdateIsExact(w, regions, e.now, e.needed);
      OneMoreExact(w.log, Made(e.now, e.needed, w.p), regions);
    }
  }

  lemma {:induction false} RunKeepsExact(w: World, regions: set<string>, events: seq<Event>)
    requires Inv(w, regions) && Recorded(w, regions) && AllExact(w.log, regions) && CanRun(w, regions, events)
    ensures AllExact(Run(w, regions, events).log, regions)
    decreases |events|
  {
    if events != [] {
      DoKeepsInv(w, regions, events[0]);
      DoKeepsRecorded(w, regions, events[0]);
      DoIsExact(w, regions, events[0]);
      RunKeepsExact(Do(w, regions, events[0]), regions, events[1..]);
    }
  }

  /** In every run every update starts and shuts down exactly the relays for which that was due. */
  lemma RunIsExact(regions: set<string>, events: seq<Event>)
    requires CanRun(START, regions, events)
    ensures AllExact(Run(START, regions, events).log, regions)
  {
    RunKeepsExact(START, regions, events);
  }
}
