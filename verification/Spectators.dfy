/** The SpectatorRegistry of pkg/lobby/spectator.go as objects changed in place. How much of a write a
    connection takes, and with which error, is arbitrary. */
module Spectators {
  import opened Wrappers
  import opened Bytes
  import opened SpectatorFanout

  /** What a connection does: how many bytes its k-th write takes of so many, and the error. */
  type Behaviour = (nat, nat) -> (nat, WriteError)

  /** The contract of Go's Write: all of the data, or an error. */
  function Outcome(takes: Behaviour, k: nat, len: nat): (r: (nat, WriteError))
    ensures r.0 <= len && (r.0 < len ==> r.1 != NoError)
  {
    var (n, err) := takes(k, len);
    if n >= len then (len, err) else (n, if err == NoError then DeadlineExceeded else err)
  }

  /** error is that of the last write. */
  class Conn {
    const takes: Behaviour
    var writes: nat
    var sent: seq<byte>
    var closed: bool
    ghost var error: WriteError

    constructor (takes: Behaviour)
      ensures this.takes == takes && writes == 0 && sent == [] && !closed && error == NoError
    {
      this.takes, writes, sent, closed, error := takes, 0, [], false, NoError;
    }

    method Write(data: seq<byte>) returns (n: nat, err: WriteError)
      modifies this`sent, this`writes, this`error
      ensures (n, err) == Outcome(takes, old(writes), |data|) && error == err
      ensures writes == old(writes) + 1 && sent == old(sent) + data[..n]
    {
      var (k, e) := Outcome(takes, writes, |data|);
      error := e;
      writes := writes + 1;
      sent := sent + data[..k];
      return k, e;
    }

    method Close()
      modifies this`closed
      ensures closed
    {
      closed := true;
    }
  }

  class LiveBattle {
    const code: string
    const session: int
    const openedAt: int
    var uploading: bool
    var uploaded: bool
    var done: Option<int>
    var buf: seq<byte>
    var watchers: int

    constructor (code: string, session: int, now: int)
      ensures State() == Opened(code, session, now)
    {
      this.code, this.session, openedAt := code, session, now;
      uploading, uploaded, done, buf, watchers := false, false, None, [], 0;
    }

    function Shows(): View
      reads this`buf, this`done
    {
      View(buf, done.Some?)
    }

    ghost function State(): Battle
      reads this
    {
      Battle(code, session, openedAt, uploading, uploaded, done, buf, watchers)
    }
  }

  // ---- A watcher's turn ---------------------------------------------------------------------

  /** A watcher with its connection. */
  datatype WatcherState = WatcherState(stream: Stream, progress: int, writes: nat, closed: bool, error: WriteError)

  /** s after write number s.writes, which took n bytes. */
  function AfterWrite(s: WatcherState, buf: seq<byte>, n: nat, err: WriteError, clock: int): WatcherState
    requires n <= |NextData(s.stream, buf)|
  {
    WatcherState(Wrote(s.stream, buf, n), if n > 0 then clock else s.progress, s.writes + 1, s.closed, err)
  }

  /** write: what is missing is written until an error, the last one; clock is the time. */
  function Sending(takes: Behaviour, s: WatcherState, buf: seq<byte>, clock: int): (WatcherState, WriteError)
    decreases |s.stream.pre|, |buf| - s.stream.pos
  {
    var data := NextData(s.stream, buf);
    if data == [] then (s, NoError)
    else
      var (n, err) := Outcome(takes, s.writes, |data|);
      var s1 := AfterWrite(s, buf, n, err, clock);
      if err != NoError then (s1, err) else Sending(takes, s1, buf, clock)
  }

  /** A watcher stays while its connection lives, unless an ended upload is all sent or it made no progress. */
  predicate Stays(s: WatcherState, err: WriteError, v: View, now: int) {
    err != OtherError && !Complete(s.stream, v) && now - s.progress <= STALL
  }

  /** A watcher's turn in deliver, and whether it is kept. */
  function Turned(takes: Behaviour, s: WatcherState, v: View, now: int, clock: int): (WatcherState, bool) {
    var (s1, err) := Sending(takes, s, v.buf, clock);
    var keep := Stays(s1, err, v, now);
    (s1.(closed := s1.closed || !keep), keep)
  }

  /** Sending continues the stream without gap, with at most two writes and none if there is nothing to send.
      Without error all is sent; the error is that of the last write. */
  lemma {:induction false} SendingIsExact(takes: Behaviour, s: WatcherState, buf: seq<byte>, clock: int)
    requires StreamOk(s.stream, buf)
    ensures var (s1, err) := Sending(takes, s, buf, clock);
            && StreamOk(s1.stream, buf) && s.stream.sent <= s1.stream.sent && s1.stream.header == s.stream.header
            && s.writes <= s1.writes <= s.writes + (if s.stream.pre != [] then 2 else 1)
            && (s1.writes == s.writes <==> AllSent(s.stream, buf))
            && err == (if s1.writes == s.writes then NoError else s1.error)
            && (err == NoError ==> AllSent(s1.stream, buf))
            && s1.progress == (if s1.stream.sent == s.stream.sent then s.progress else clock)
            && s1.closed == s.closed
    decreases |s.stream.pre|, |buf| - s.stream.pos
  {
    var data := NextData(s.stream, buf);
    if data != [] {
      var (n, err) := Outcome(takes, s.writes, |data|);
      WroteKeeps(s.stream, buf, buf, n);
      var s1 := AfterWrite(s, buf, n, err, clock);
      assert |s1.stream.sent| == |s.stream.sent| + n;
      if err == NoError {
        SendingIsExact(takes, s1, buf, clock);
      }
    }
  }

  /** Who is kept after a turn: a watcher whose connection, if it was written to, did not fail but for its
      deadline, which does not have all of an ended upload yet, and to which something was written in the last
      30 seconds. The connections of the others are closed. */
  lemma KeptExactly(takes: Behaviour, s: WatcherState, v: View, now: int, clock: int, s1: WatcherState, keep: bool)
    requires StreamOk(s.stream, v.buf) && Served(takes, s, v, now, clock, s1, keep)
    ensures keep <==>
            && (s1.writes > s.writes ==> s1.error == NoError || s1.error == DeadlineExceeded)
            && (!v.done || |s1.stream.pre| > 0 || s1.stream.pos < |v.buf|)
            && now - s1.progress <= 30_000_000_000
    ensures s1.closed == (s.closed || !keep)
    ensures s1.progress == if |s1.stream.sent| > |s.stream.sent| then clock else s.progress
  {
    SendingIsExact(takes, s, v.buf, clock);
  }

  /** What a turn makes of a watcher, and whether it is kept. */
  predicate Served(takes: Behaviour, s: WatcherState, v: View, now: int, clock: int, s1: WatcherState, keep: bool) {
    (s1, keep) == Turned(takes, s, v, now, clock)
  }

  class LiveWatcher {
    const b: LiveBattle
    const conn: Conn
    ghost const header: seq<byte>
    var pre: seq<byte>
    var pos: nat
    var progress: int

    constructor (b: LiveBattle, conn: Conn, pre: seq<byte>, now: int)
      requires conn.sent == []
      ensures this.b == b && this.conn == conn
      ensures State() == WatcherState(NewStream(pre), now, conn.writes, conn.closed, conn.error)
    {
      this.b, this.conn, this.header, this.pre, pos, progress := b, conn, pre, pre, 0, now;
    }

    ghost function State(): WatcherState
      reads this`pre, this`pos, this`progress, conn
    {
      WatcherState(Stream(header, pre, pos, conn.sent), progress, conn.writes, conn.closed, conn.error)
    }

    /** write: sends what the watcher has not got; false if the connection failed. */
    method Send(buf: seq<byte>, clock: int) returns (alive: bool)
      requires pos <= |buf|
      modifies this`pre, this`pos, this`progress, conn`sent, conn`writes, conn`error
      ensures var (s1, err) := Sending(conn.takes, old(State()), buf, clock);
              State() == s1 && alive == (err != OtherError)
    {
      while |pre| > 0 || pos < |buf|
        invariant pos <= |buf|
        invariant Sending(conn.takes, State(), buf, clock) == Sending(conn.takes, old(State()), buf, clock)
        decreases |pre| + (|buf| - pos)
      {
        var data := pre;
        if |data| == 0 {
          data := buf[pos..];
        }
        var n, err := conn.Write(data);
        if n > 0 {
          progress := clock;
          if |pre| > 0 {
            pre := pre[n..];
          } else {
            pos := pos + n;
          }
        }
        if err != NoError {
          return err == DeadlineExceeded;
        }
      }
      return true;
    }
  }

  // ---- The turn as steps of the fan-out -----------------------------------------------------

  lemma {:induction false} RunTwice(st: State, a: seq<Step>, b: seq<Step>)
    requires Run(st, a).Some?
    ensures Run(st, a + b) == Run(Run(st, a).value, b)
    decreases |a|
  {
    if a == [] {
      assert a + b == b;
    } else {
      assert (a + b)[1..] == a[1..] + b;
      RunTwice(Next(st, a[0]), a[1..], b);
    }
  }

  /** Client c of the state machine is the watcher s. */
  predicate Watches(st: State, c: nat, s: WatcherState) {
    && c < |st.clients| && st.clients[c].Watching? && st.clients[c].battle in st.views
    && st.clients[c] == ClientOf(st.clients[c].battle, s)
  }

  function ClientOf(battle: nat, s: WatcherState): Client {
    Watching(battle, s.stream, s.progress, s.error == OtherError)
  }

  function WithWatcher(st: State, c: nat, s: WatcherState): State
    requires c < |st.clients| && st.clients[c].Watching?
  {
    st.(clients := st.clients[c := ClientOf(st.clients[c].battle, s)])
  }

  lemma LastWatcher(st: State, c: nat, s1: WatcherState, s2: WatcherState)
    requires c < |st.clients| && st.clients[c].Watching?
    ensures WithWatcher(WithWatcher(st, c, s1), c, s2) == WithWatcher(st, c, s2)
  {
    var b := st.clients[c].battle;
    assert st.clients[c := ClientOf(b, s1)][c := ClientOf(b, s2)] == st.clients[c := ClientOf(b, s2)];
  }

  /** The writes of a turn are steps of the state machine for the same client. */
  lemma {:induction false} SendingIsRun(st: State, c: nat, takes: Behaviour, s: WatcherState, clock: int)
    returns (steps: seq<Step>)
    requires Watches(st, c, s)
    ensures Run(st, steps) ==
            Some(WithWatcher(st, c, Sending(takes, s, st.views[st.clients[c].battle].buf, clock).0))
    decreases |s.stream.pre|, |st.views[st.clients[c].battle].buf| - s.stream.pos
  {
    var buf := st.views[st.clients[c].battle].buf;
    var data := NextData(s.stream, buf);
    if data == [] {
      assert st.clients[c := st.clients[c]] == st.clients;
      steps := [];
      assert Run(st, steps) == Some(st);
    } else {
      var (n, err) := Outcome(takes, s.writes, |data|);
      var s1 := AfterWrite(s, buf, n, err, clock);
      var step := WriteSome(c, n, err, clock);
      var st1 := Next(st, step);
      assert st1 == WithWatcher(st, c, s1);
      if err != NoError {
        steps := [step];
        assert Run(st, steps) == Run(st1, []);
      } else {
        var more := SendingIsRun(st1, c, takes, s1, clock);
        steps := [step] + more;
        assert Run(st, steps) == Run(st1, more);
        LastWatcher(st, c, s1, Sending(takes, s1, buf, clock).0);
      }
    }
  }

  /** A whole turn is a run: the writes, and unless the watcher is kept a drop for a reason that holds. */
  lemma TurnIsRun(st: State, c: nat, takes: Behaviour, s: WatcherState, now: int, clock: int)
    returns (steps: seq<Step>, reason: DropReason)
    requires Watches(st, c, s) && StreamOk(s.stream, st.views[st.clients[c].battle].buf)
    ensures var (s1, keep) := Turned(takes, s, st.views[st.clients[c].battle], now, clock);
            var sent := WithWatcher(st, c, s1);
            && (keep ==> Run(st, steps) == Some(sent))
            && (!keep ==> Enabled(sent, Drop(c, reason)) && Run(st, steps) == Some(Next(sent, Drop(c, reason))))
    ensures reason in {ConnectionFailed, Stalled(now), Finished}
  {
    var v := st.views[st.clients[c].battle];
    var (s1, err) := Sending(takes, s, v.buf, clock);
    SendingIsExact(takes, s, v.buf, clock);
    steps := SendingIsRun(st, c, takes, s, clock);
    reason := if err == OtherError then ConnectionFailed else if Complete(s1.stream, v) then Finished else Stalled(now);
    if !Stays(s1, err, v, now) {
      RunTwice(st, steps, [Drop(c, reason)]);
      steps := steps + [Drop(c, reason)];
    }
  }

  // ---- Rotation and selection ---------------------------------------------------------------

  /** The turn-th rotation: element i is old element (i + turn) mod n. */
  function Rotated<T>(s: seq<T>, turn: nat): (r: seq<T>)
    ensures |r| == |s|
  {
    seq(|s|, i requires 0 <= i < |s| => s[(i + turn) % |s|])
  }

  /** A rotation is two pieces exchanged, so it has the same elements. */
  lemma RotatedIsSplit<T>(s: seq<T>, turn: nat)
    requires s != []
    ensures Rotated(s, turn) == s[turn % |s|..] + s[..turn % |s|]
    ensures multiset(Rotated(s, turn)) == multiset(s)
  {
    var n := |s|;
    var k := turn % n;
    var r, split := Rotated(s, turn), s[k..] + s[..k];
    forall i | 0 <= i < n
      ensures r[i] == split[i]
    {
      RotationIndex(i, turn, n);
    }
    assert r == split;
    assert s == s[..k] + s[k..];
  }

  lemma RotationIndex(i: nat, turn: nat, n: nat)
    requires i < n
    ensures (i + turn) % n == if i + turn % n < n then i + turn % n else i + turn % n - n
  {
    var q, k := turn / n, turn % n;
    if i + k < n {
      ModUnique(i + turn, n, q, i + k);
    } else {
      Distribute(n, q, 1);
      ModUnique(i + turn, n, q + 1, i + k - n);
    }
  }

  lemma Distribute(n: nat, a: nat, b: nat)
    ensures n * (a + b) == n * a + n * b
  {
  }

  lemma AtLeastOnce(n: nat, a: nat)
    requires a >= 1
    ensures n * a >= n
  {
  }

  lemma ModUnique(a: nat, n: nat, q: nat, r: nat)
    requires r < n && a == n * q + r
    ensures a % n == r
  {
    var d, m := a / n, a % n;
    assert a == n * d + m;
    if d < q {
      Distribute(n, d, q - d);
      AtLeastOnce(n, q - d);
    } else if d > q {
      Distribute(n, q, d - q);
      AtLeastOnce(n, d - q);
    }
  }

  /** The elements whose flag is set, in order. */
  function Select<T>(s: seq<T>, flags: seq<bool>): (r: seq<T>)
    requires |s| == |flags|
    ensures |r| <= |s|
  {
    if s == [] then []
    else Select(s[..|s| - 1], flags[..|s| - 1]) + if flags[|s| - 1] then [s[|s| - 1]] else []
  }

  /** Those who are not selected. */
  function Others<T>(s: seq<T>, flags: seq<bool>): (r: seq<T>)
    requires |s| == |flags|
  {
    if s == [] then []
    else Others(s[..|s| - 1], flags[..|s| - 1]) + if flags[|s| - 1] then [] else [s[|s| - 1]]
  }

  /** Nobody is lost or duplicated: the selected and the others together are all. */
  lemma {:induction false} SelectedAndOthers<T>(s: seq<T>, flags: seq<bool>)
    requires |s| == |flags|
    ensures multiset(Select(s, flags)) + multiset(Others(s, flags)) == multiset(s)
    decreases |s|
  {
    if s != [] {
      var n := |s| - 1;
      var (s0, flags0) := (s[..n], flags[..n]);
      SelectedAndOthers(s0, flags0);
      OneMore(Select(s0, flags0), Others(s0, flags0), s0, s[n], flags[n]);
      assert s == s0 + [s[n]];
    }
  }

  lemma OneMore<T>(a: seq<T>, b: seq<T>, s: seq<T>, x: T, left: bool)
    requires multiset(a) + multiset(b) == multiset(s)
    ensures multiset(a + if left then [x] else []) + multiset(b + if left then [] else [x]) == multiset(s + [x])
  {
    assert a + [] == a && b + [] == b;
  }

  /** How many watchers of b are not selected. */
  function Dropped(s: seq<LiveWatcher>, flags: seq<bool>, b: LiveBattle): nat
    requires |s| == |flags|
  {
    if s == [] then 0
    else Dropped(s[..|s| - 1], flags[..|s| - 1], b) + if !flags[|s| - 1] && s[|s| - 1].b == b then 1 else 0
  }

  lemma SelectAppend<T>(s: seq<T>, flags: seq<bool>, x: T, flag: bool)
    requires |s| == |flags|
    ensures Select(s + [x], flags + [flag]) == Select(s, flags) + if flag then [x] else []
  {
    assert (s + [x])[..|s|] == s && (flags + [flag])[..|s|] == flags;
  }

  lemma SelectStep<T>(s: seq<T>, i: nat, flags: seq<bool>, flag: bool)
    requires i < |s| && |flags| == i
    ensures Select(s[..i + 1], flags + [flag]) == Select(s[..i], flags) + if flag then [s[i]] else []
  {
    assert s[..i + 1] == s[..i] + [s[i]];
    SelectAppend(s[..i], flags, s[i], flag);
  }

  lemma WholeTaken<T>(s: seq<T>)
    ensures s[..|s|] == s
  {
  }

  lemma DroppedAppend(s: seq<LiveWatcher>, flags: seq<bool>, x: LiveWatcher, flag: bool, b: LiveBattle)
    requires |s| == |flags|
    ensures Dropped(s + [x], flags + [flag], b) == Dropped(s, flags, b) + if !flag && x.b == b then 1 else 0
  {
    assert (s + [x])[..|s|] == s && (flags + [flag])[..|s|] == flags;
  }

  predicate Distinct(ws: seq<LiveWatcher>) {
    forall i, j :: 0 <= i < |ws| && 0 <= j < |ws| && i != j ==> ws[i] != ws[j] && ws[i].conn != ws[j].conn
  }

  lemma RotatedWatchers(ws: seq<LiveWatcher>, turn: nat)
    requires Distinct(ws)
    ensures Distinct(Rotated(ws, turn))
    ensures forall w :: w in Rotated(ws, turn) <==> w in ws
  {
    if ws != [] {
      RotatedIsSplit(ws, turn);
      var k := turn % |ws|;
      assert ws == ws[..k] + ws[k..];
    }
  }

  ghost function States(ws: seq<LiveWatcher>): (r: seq<WatcherState>)
    reads (set w | w in ws :: w), (set w | w in ws :: w.conn)
    ensures |r| == |ws| && forall i :: 0 <= i < |ws| ==> r[i] == ws[i].State()
  {
    seq(|ws|, i requires 0 <= i < |ws| reads (set w | w in ws :: w), (set w | w in ws :: w.conn) =>
                assert ws[i] in ws; ws[i].State())
  }

  ghost function Counts(ws: seq<LiveWatcher>): (r: seq<int>)
    reads set w | w in ws :: w.b
    ensures |r| == |ws| && forall i :: 0 <= i < |ws| ==> r[i] == ws[i].b.watchers
  {
    seq(|ws|, i requires 0 <= i < |ws| reads set w | w in ws :: w.b => assert ws[i] in ws; ws[i].b.watchers)
  }

  /** Since counts0, every battle lost the dropped ones among done. */
  ghost predicate CountsLeft(order: seq<LiveWatcher>, done: seq<LiveWatcher>, kept: seq<bool>, counts0: seq<int>,
                             counts: seq<int>)
    requires |done| == |kept|
  {
    && |counts0| == |counts| == |order|
    && forall j :: 0 <= j < |order| ==> counts[j] == counts0[j] - Dropped(done, kept, order[j].b)
  }

  /** n spectators of b less. */
  function Lowered(order: seq<LiveWatcher>, counts: seq<int>, b: LiveBattle, n: int): (r: seq<int>)
    requires |counts| == |order|
    ensures |r| == |order| && forall j :: 0 <= j < |r| ==> r[j] == counts[j] - if order[j].b == b then n else 0
  {
    seq(|order|, j requires 0 <= j < |order| => counts[j] - if order[j].b == b then n else 0)
  }

  lemma CountsAfter(order: seq<LiveWatcher>, i: nat, kept: seq<bool>, keep: bool, counts0: seq<int>, counts: seq<int>)
    requires i < |order| && |kept| == i && CountsLeft(order, order[..i], kept, counts0, counts)
    ensures CountsLeft(order, order[..i + 1], kept + [keep], counts0,
                       Lowered(order, counts, order[i].b, if keep then 0 else 1))
  {
    assert order[..i + 1] == order[..i] + [order[i]];
    forall j | 0 <= j < |order|
      ensures Dropped(order[..i + 1], kept + [keep], order[j].b) ==
              Dropped(order[..i], kept, order[j].b) + if !keep && order[i].b == order[j].b then 1 else 0
    {
      DroppedAppend(order[..i], kept, order[i], keep, order[j].b);
    }
  }

  ghost predicate AreCounts(order: seq<LiveWatcher>, counts: seq<int>)
    reads (set w | w in order :: w.b)`watchers
  {
    |counts| == |order| && forall j :: 0 <= j < |order| ==> order[j].b.watchers == counts[j]
  }

  ghost predicate AreStates(order: seq<LiveWatcher>, states: seq<WatcherState>)
    reads (set w | w in order :: w), (set w | w in order :: w.conn)
  {
    |states| == |order| && forall j :: 0 <= j < |order| ==> order[j].State() == states[j]
  }

  /** views is what the battles of the watchers are like. */
  ghost predicate ViewsAre(order: seq<LiveWatcher>, views: map<LiveBattle, View>)
    reads (set w | w in order :: w.b)`buf, (set w | w in order :: w.b)`done
  {
    forall j :: 0 <= j < |order| ==> order[j].b in views && views[order[j].b] == order[j].b.Shows()
  }

  /** The first i watchers had their turn, the others are as they were. */
  ghost predicate ServedUpTo(order: seq<LiveWatcher>, views: map<LiveBattle, View>, now: int, clock: int, i: nat,
                             states0: seq<WatcherState>, states: seq<WatcherState>, kept: seq<bool>) {
    && |states0| == |states| == |order| && |kept| == i <= |order|
    && (forall j :: 0 <= j < |order| ==> order[j].b in views)
    && (forall j :: i <= j < |order| ==> states[j] == states0[j] && states[j].stream.pos <= |views[order[j].b].buf|)
    && (forall j :: 0 <= j < i ==>
          Served(order[j].conn.takes, states0[j], views[order[j].b], now, clock, states[j], kept[j]))
  }

  lemma ServedOneMore(order: seq<LiveWatcher>, views: map<LiveBattle, View>, now: int, clock: int, i: nat,
                      states0: seq<WatcherState>, states: seq<WatcherState>, kept: seq<bool>,
                      s1: WatcherState, keep: bool)
    requires i < |order| && ServedUpTo(order, views, now, clock, i, states0, states, kept)
    requires Served(order[i].conn.takes, states[i], views[order[i].b], now, clock, s1, keep)
    ensures ServedUpTo(order, views, now, clock, i + 1, states0, states[i := s1], kept + [keep])
  {
    var (kept1, states1) := (kept + [keep], states[i := s1]);
    forall j | 0 <= j < i + 1
      ensures Served(order[j].conn.takes, states0[j], views[order[j].b], now, clock, states1[j], kept1[j])
    {
      if j < i {
        assert kept1[j] == kept[j] && states1[j] == states[j];
      }
    }
  }

  /** A pass over the watchers: their states, the counters of their battles, and who was kept so far. */
  datatype Pass = Pass(states: seq<WatcherState>, counts: seq<int>, kept: seq<bool>)

  /** The first i turns led from start to p; front are those kept. */
  ghost predicate PassOk(order: seq<LiveWatcher>, views: map<LiveBattle, View>, now: int, clock: int, i: nat,
                         start: Pass, p: Pass, front: seq<LiveWatcher?>) {
    && ServedUpTo(order, views, now, clock, i, start.states, p.states, p.kept)
    && CountsLeft(order, order[..i], p.kept, start.counts, p.counts)
    && front == Select(order[..i], p.kept)
  }

  ghost predicate PassIs(order: seq<LiveWatcher>, p: Pass)
    reads (set w | w in order :: w), (set w | w in order :: w.conn), (set w | w in order :: w.b)`watchers
  {
    AreStates(order, p.states) && AreCounts(order, p.counts)
  }

  function PassNext(order: seq<LiveWatcher>, i: nat, p: Pass, s1: WatcherState, keep: bool): Pass
    requires i < |order| == |p.states| == |p.counts|
  {
    Pass(p.states[i := s1], Lowered(order, p.counts, order[i].b, if keep then 0 else 1), p.kept + [keep])
  }

  lemma NextIsReady(order: seq<LiveWatcher>, views: map<LiveBattle, View>, now: int, clock: int, i: nat,
                    start: Pass, p: Pass, front: seq<LiveWatcher?>)
    requires i < |order| && PassOk(order, views, now, clock, i, start, p, front)
    ensures |p.states| == |p.counts| == |order| && order[i] in order && order[i].b in views
    ensures p.states[i].stream.pos <= |views[order[i].b].buf|
  {
  }

  lemma PassOneMore(order: seq<LiveWatcher>, views: map<LiveBattle, View>, now: int, clock: int, i: nat,
                    start: Pass, p: Pass, front: seq<LiveWatcher?>, s1: WatcherState, keep: bool)
    requires i < |order| && PassOk(order, views, now, clock, i, start, p, front)
    requires Served(order[i].conn.takes, p.states[i], views[order[i].b], now, clock, s1, keep)
    ensures PassOk(order, views, now, clock, i + 1, start, PassNext(order, i, p, s1, keep),
                   front + if keep then [order[i]] else [])
  {
    ServedOneMore(order, views, now, clock, i, start.states, p.states, p.kept, s1, keep);
    CountsAfter(order, i, p.kept, keep, start.counts, p.counts);
    SelectStep(order, i, p.kept, keep);
  }

  /** Go's conversion to int32. */
  function Int32(n: int): (r: int)
    ensures -0x8000_0000 <= r < 0x8000_0000
  {
    (n + 0x8000_0000) % WORD32 - 0x8000_0000
  }

  /** A battle and an upload are of the same session if they agree in 32 bits, signed or not. */
  lemma SameSession(session: uint32, given: int)
    ensures Int32(session) == Int32(given) <==> session == given % WORD32
  {
    assert (session + 0x8000_0000) % WORD32 ==
           if session < 0x8000_0000 then session + 0x8000_0000 else session - 0x8000_0000;
    var low := given % WORD32;
    assert (given + 0x8000_0000) % WORD32 == (low + 0x8000_0000) % WORD32;
  }

  class SpectatorRegistry {
    var battles: map<string, LiveBattle>
    var nwatchers: int

    constructor ()
      ensures battles == map[] && nwatchers == 0
    {
      battles, nwatchers := map[], 0;
    }

    method Open(code: string, session: uint32, now: int)
      modifies this`battles
      ensures if code in old(battles) then battles == old(battles)
              else code in battles && battles == old(battles)[code := battles[code]] && fresh(battles[code])
                   && battles[code].State() == Opened(code, Int32(session), now)
    {
      if code in battles {
        return;
      }
      var b := new LiveBattle(code, Int32(session), now);
      battles := battles[code := b];
    }

    /** The battle, or null with an HTTP status: 404 unknown, 409 already uploaded. */
    method StartUpload(code: string, session: int) returns (b: LiveBattle?, status: int)
      modifies battles.Values`uploaded, battles.Values`uploading
      ensures b != null <==> code in battles && MayStart(old(battles[code].State()), session)
      ensures b != null ==> b == battles[code] && status == 0 && b.State() == Started(old(b.State()))
      ensures b == null ==> status == if code in battles && battles[code].session == session then 409 else 404
      ensures forall x :: x in battles.Values && x != b ==> x.State() == old(x.State())
    {
      if code !in battles || battles[code].session != session {
        return null, 404;
      }
      if battles[code].uploaded {
        return null, 409;
      }
      b, status := battles[code], 0;
      b.uploaded, b.uploading := true, true;
    }

    method Add(b: LiveBattle, data: seq<byte>) returns (ok: bool)
      modifies b`buf
      ensures ok <==> |old(b.buf)| + |data| <= MAX_BYTES
      ensures b.State() == Extended(old(b.State()), data)
    {
      if |b.buf| + |data| > MAX_BYTES {
        return false;
      }
      b.buf := b.buf + data;
      return true;
    }

    method EndUpload(b: LiveBattle, now: int)
      modifies b`uploading, b`done
      ensures b.State() == Ended(old(b.State()), now)
    {
      b.uploading := false;
      b.done := Some(now);
    }

    /** The battle asked for: the one with the code, or for "" the newest. */
    ghost predicate Asked(x: LiveBattle, code: string, skip: Option<seq<string>>)
      reads this, battles.Values, x
    {
      if code != "" then code in battles && x == battles[code] && x.uploaded
      else x in battles.Values && Newest(x, skip)
    }

    /** skip None is a request without skip. 404: there is no such battle; 503: it or the registry is full. */
    method Pick(code: string, skip: Option<seq<string>>) returns (b: LiveBattle?, status: int)
      modifies this`nwatchers, battles.Values`watchers
      ensures b != null ==>
                && b in battles.Values && old(Asked(b, code, skip)) && status == 0
                && Admits(old(b.State()), old(nwatchers))
                && nwatchers == old(nwatchers) + 1 && b.State() == Recounted(old(b.State()), 1)
      ensures b == null ==> status in {404, 503} && nwatchers == old(nwatchers)
      ensures b == null && status == 404 ==> forall x :: x in battles.Values ==> !Asked(x, code, skip)
      ensures b == null && status == 503 ==>
                exists x :: x in battles.Values && Asked(x, code, skip) && !Admits(x.State(), nwatchers)
      ensures forall x :: x in battles.Values && x != b ==> x.State() == old(x.State())
    {
      b := null;
      if code != "" {
        if code in battles {
          b := battles[code];
        }
      } else {
        b := FindNewest(skip);
      }
      if b == null || !b.uploaded {
        return null, 404;
      }
      assert Asked(b, code, skip);
      if nwatchers >= MAX_SPECTATORS || b.watchers >= MAX_BATTLE_WATCHERS {
        return null, 503;
      }
      b.watchers := b.watchers + 1;
      nwatchers := nwatchers + 1;
      return b, 0;
    }

    method Unpick(b: LiveBattle)
      modifies this`nwatchers, b`watchers
      ensures nwatchers == old(nwatchers) - 1 && b.State() == Recounted(old(b.State()), -1)
    {
      b.watchers := b.watchers - 1;
      nwatchers := nwatchers - 1;
    }

    predicate Candidate(b: LiveBattle, skip: Option<seq<string>>)
      reads b
    {
      b.uploaded && (skip.Some? ==> b.done.None? && b.code !in skip.value)
    }

    /** b would replace best: running before ended, then opened later. */
    predicate Better(b: LiveBattle, best: LiveBattle)
      reads b, best
    {
      || (best.done.None? == b.done.None? && best.openedAt < b.openedAt)
      || (best.done.Some? && b.done.None?)
    }

    /** b is a candidate that no candidate beats. */
    ghost predicate Newest(b: LiveBattle, skip: Option<seq<string>>)
      reads this, battles.Values, b
    {
      Candidate(b, skip) && forall x :: x in battles.Values && Candidate(x, skip) ==> !Better(x, b)
    }

    /** x may come after b: b is running if x is, and was not opened earlier if both or none are. */
    predicate NotBefore(b: LiveBattle, x: LiveBattle)
      reads b, x
    {
      && (x.done.None? ==> b.done.None?)
      && (x.done.None? == b.done.None? ==> x.openedAt <= b.openedAt)
    }

    /** Of the battles with an upload a running one if there is one, and of these or else of all one that was
        opened last; with skip only running ones that are not in it. */
    lemma NewestExactly(b: LiveBattle, skip: Option<seq<string>>)
      ensures Newest(b, skip) <==>
              && b.uploaded && (skip.Some? ==> b.done.None? && b.code !in skip.value)
              && forall x ::
                  (x in battles.Values && x.uploaded && (skip.Some? ==> x.done.None? && x.code !in skip.value)) ==>
                  NotBefore(b, x)
    {
      forall x: LiveBattle ensures Better(x, b) <==> !NotBefore(b, x) {
        BetterExactly(x, b);
      }
    }

    lemma BetterExactly(x: LiveBattle, b: LiveBattle)
      ensures Better(x, b) <==> !NotBefore(b, x)
    {
    }

    /** newest: whatever the order in which the map gives its battles. */
    method FindNewest(skip: Option<seq<string>>) returns (best: LiveBattle?)
      ensures best != null ==> best in battles.Values && Newest(best, skip)
      ensures best == null ==> forall x :: x in battles.Values ==> !Candidate(x, skip)
    {
      best := null;
      var codes := battles.Keys;
      while codes != {}
        invariant codes <= battles.Keys
        invariant best == null ==> forall c :: c in battles && c !in codes ==> !Candidate(battles[c], skip)
        invariant best != null ==> best in battles.Values && Candidate(best, skip)
        invariant best != null ==> forall c :: c in battles && c !in codes && Candidate(battles[c], skip) ==>
                  !Better(battles[c], best)
        decreases codes
      {
        var code :| code in codes;
        codes := codes - {code};
        var b := battles[code];
        if !b.uploaded || (skip.Some? && (b.done.Some? || b.code in skip.value)) {
          continue;
        }
        if best == null || Better(b, best) {
          best := b;
        }
      }
    }

    method Drop(w: LiveWatcher)
      modifies w.conn`closed, w.b`watchers, this`nwatchers
      ensures w.conn.closed && w.b.watchers == old(w.b.watchers) - 1 && nwatchers == old(nwatchers) - 1
    {
      w.conn.Close();
      w.b.watchers := w.b.watchers - 1;
      nwatchers := nwatchers - 1;
    }

    method Tick(now: int)
      modifies this`battles
      ensures battles == map code | code in old(battles) && !Expired(old(battles)[code].State(), now) ::
              old(battles)[code]
    {
      var codes := battles.Keys;
      while codes != {}
        invariant codes <= old(battles).Keys
        invariant battles == map code | code in old(battles)
                  && (code in codes || !Expired(old(battles)[code].State(), now)) :: old(battles)[code]
        decreases codes
      {
        var code :| code in codes;
        codes := codes - {code};
        var b := battles[code];
        if (b.done.Some? && now - b.done.value > RETENTION) || (!b.uploaded && now - b.openedAt > IDLE) {
          battles := battles - {code};
        }
      }
    }

    /** One watcher's turn: it is dropped unless it stays. */
    method Serve(w: LiveWatcher, v: View, now: int, clock: int) returns (keep: bool)
      requires v == w.b.Shows() && w.pos <= |v.buf|
      modifies w`pre, w`pos, w`progress, w.conn, w.b`watchers, this`nwatchers
      ensures Served(w.conn.takes, old(w.State()), v, now, clock, w.State(), keep)
      ensures nwatchers == old(nwatchers) - if keep then 0 else 1
      ensures w.b.watchers == old(w.b.watchers) - if keep then 0 else 1
    {
      var alive := w.Send(v.buf, clock);
      if !alive || (v.done && |w.pre| == 0 && w.pos == |v.buf|) || now - w.progress > STALL {
        Drop(w);
        return false;
      }
      return true;
    }

    /** The pass over the watchers in their order: those kept move to the front of ws. */
    method ServeAll(ws: array<LiveWatcher?>, order: seq<LiveWatcher>, views: map<LiveBattle, View>, now: int,
                    clock: int)
      returns (k: nat, ghost kept: seq<bool>)
      requires |order| <= ws.Length && Distinct(order) && ViewsAre(order, views)
      requires forall w :: w in order ==> w.pos <= |w.b.buf|
      modifies ws, this`nwatchers, set w | w in order :: w, set w | w in order :: w.conn,
               (set w | w in order :: w.b)`watchers
      ensures |kept| == |order| && k <= |order| && ViewsAre(order, views)
      ensures ws[..k] == Select(order, kept)
      ensures forall i :: 0 <= i < |order| ==>
                Served(order[i].conn.takes, old(order[i].State()), views[order[i].b], now, clock,
                       order[i].State(), kept[i])
      ensures nwatchers == old(nwatchers) - (|order| - k)
      ensures forall i :: 0 <= i < |order| ==>
              order[i].b.watchers == old(order[i].b.watchers) - Dropped(order, kept, order[i].b)
    {
      ghost var start := Pass(States(order), Counts(order), []);
      ghost var p;
      k, p := TurnAll(ws, order, views, now, clock, start);
      kept := p.kept;
      WholeTaken(order);
    }

    /** The loop of the pass. */
    method TurnAll(ws: array<LiveWatcher?>, order: seq<LiveWatcher>, views: map<LiveBattle, View>, now: int, clock: int,
                   ghost start: Pass)
      returns (k: nat, ghost p: Pass)
      requires |order| <= ws.Length && Distinct(order) && ViewsAre(order, views) && PassIs(order, start)
      requires PassOk(order, views, now, clock, 0, start, start, [])
      modifies ws, this`nwatchers, set w | w in order :: w, set w | w in order :: w.conn,
               (set w | w in order :: w.b)`watchers
      ensures k <= |order| && ViewsAre(order, views) && PassIs(order, p)
      ensures PassOk(order, views, now, clock, |order|, start, p, ws[..k])
      ensures nwatchers == old(nwatchers) - (|order| - k)
    {
      k, p := 0, start;
      for i := 0 to |order|
        invariant k <= i && PassIs(order, p) && PassOk(order, views, now, clock, i, start, p, ws[..k])
        invariant ViewsAre(order, views) && nwatchers == old(nwatchers) - (i - k)
      {
        NextIsReady(order, views, now, clock, i, start, p, ws[..k]);
        ghost var front := ws[..k];
        var keep;
        ghost var s1;
        keep, s1 := TurnOf(ws, k, order, i, views, now, clock, p);
        PassOneMore(order, views, now, clock, i, start, p, front, s1, keep);
        p := PassNext(order, i, p, s1, keep);
        k := if keep then k + 1 else k;
      }
    }

    /** Turn as one of all the watchers. */
    method TurnOf(ws: array<LiveWatcher?>, k: nat, order: seq<LiveWatcher>, i: nat, views: map<LiveBattle, View>,
                  now: int, clock: int, ghost p: Pass)
      returns (keep: bool, ghost s1: WatcherState)
      requires k <= i < |order| <= ws.Length && Distinct(order) && ViewsAre(order, views) && PassIs(order, p)
      requires |p.counts| == |order| && p.states[i].stream.pos <= |views[order[i].b].buf|
      modifies ws, this`nwatchers, set w | w in order :: w, set w | w in order :: w.conn,
               (set w | w in order :: w.b)`watchers
      ensures ws[..if keep then k + 1 else k] == old(ws[..k]) + if keep then [order[i]] else []
      ensures ViewsAre(order, views) && PassIs(order, PassNext(order, i, p, s1, keep))
      ensures Served(order[i].conn.takes, p.states[i], views[order[i].b], now, clock, s1, keep)
      ensures nwatchers == old(nwatchers) - if keep then 0 else 1
    {
      var w := order[i];
      assert w in order && w.State() == p.states[i];
      keep, s1 := Turn(ws, k, w, order, i, views[w.b], now, clock, p);
    }

    /** The turn of watcher i, who goes to place k of ws if kept; it leaves the others as they are. */
    method Turn(ws: array<LiveWatcher?>, k: nat, w: LiveWatcher, ghost order: seq<LiveWatcher>, ghost i: nat,
                v: View, now: int, clock: int, ghost p: Pass)
      returns (keep: bool, ghost s1: WatcherState)
      requires i < |order| && PassIs(order, p) && Distinct(order) && w == order[i]
      requires v == w.b.Shows() && w.pos <= |v.buf| && k < ws.Length
      modifies ws, w`pre, w`pos, w`progress, w.conn, w.b`watchers, this`nwatchers
      ensures ws[..if keep then k + 1 else k] == old(ws[..k]) + if keep then [w] else []
      ensures PassIs(order, PassNext(order, i, p, s1, keep))
      ensures Served(w.conn.takes, p.states[i], v, now, clock, s1, keep)
      ensures nwatchers == old(nwatchers) - if keep then 0 else 1
    {
      forall j | 0 <= j < |order| && j != i
        ensures order[j] != w && order[j].conn != w.conn
      {
      }
      keep := Serve(w, v, now, clock);
      s1 := w.State();
      if keep {
        ws[k] := w;
      }
      forall j | 0 <= j < |order| && j != i
        ensures order[j].State() == p.states[j]
      {
        assert order[j] != w && order[j].conn != w.conn;
      }
    }

    /** deliver: the n watchers are ws[..n]; those kept come back as ws[..k], in rotated order. */
    method Deliver(ws: array<LiveWatcher?>, n: nat, turn: nat, now: int, clock: int, ghost watchers: seq<LiveWatcher>)
      returns (k: nat, ghost kept: seq<bool>, ghost order: seq<LiveWatcher>)
      requires n <= ws.Length && |watchers| == n && (forall i :: 0 <= i < n ==> ws[i] == watchers[i])
      requires Distinct(watchers) && forall w :: w in watchers ==> w.pos <= |w.b.buf|
      modifies ws, this`nwatchers, set w | w in watchers :: w, set w | w in watchers :: w.conn,
               (set w | w in watchers :: w.b)`watchers
      ensures order == Rotated(watchers, turn) && k <= n && |kept| == n
      ensures ws[..k] == Select(order, kept) && forall i :: k <= i < n ==> ws[i] == null
      ensures forall i :: 0 <= i < n ==>
                Served(order[i].conn.takes, old(order[i].State()), order[i].b.Shows(), now, clock,
                       order[i].State(), kept[i])
      ensures nwatchers == old(nwatchers) - (n - k)
      ensures forall i :: 0 <= i < n ==>
              order[i].b.watchers == old(order[i].b.watchers) - Dropped(order, kept, order[i].b)
    {
      if n == 0 {
        return 0, [], [];
      }
      var views := Look(ws, n, watchers);
      var rotated := Order(ws, n, turn, watchers);
      order := rotated;
      RotatedWatchers(watchers, turn);
      k, kept := ServeInOrder(ws, rotated, views, now, clock);
    }

    /** The pass, and nothing left behind those kept. */
    method ServeInOrder(ws: array<LiveWatcher?>, order: seq<LiveWatcher>, views: map<LiveBattle, View>, now: int,
                        clock: int)
      returns (k: nat, ghost kept: seq<bool>)
      requires |order| <= ws.Length && Distinct(order) && ViewsAre(order, views)
      requires forall w :: w in order ==> w.pos <= |w.b.buf|
      modifies ws, this`nwatchers, set w | w in order :: w, set w | w in order :: w.conn,
               (set w | w in order :: w.b)`watchers
      ensures |kept| == |order| && k <= |order| && ViewsAre(order, views)
      ensures ws[..k] == Select(order, kept) && forall i :: k <= i < |order| ==> ws[i] == null
      ensures forall i :: 0 <= i < |order| ==>
                Served(order[i].conn.takes, old(order[i].State()), views[order[i].b], now, clock,
                       order[i].State(), kept[i])
      ensures nwatchers == old(nwatchers) - (|order| - k)
      ensures forall i :: 0 <= i < |order| ==>
              order[i].b.watchers == old(order[i].b.watchers) - Dropped(order, kept, order[i].b)
    {
      k, kept := ServeAll(ws, order, views, now, clock);
      Forget(ws, k, |order|);
    }

    method Look(ws: array<LiveWatcher?>, n: nat, ghost watchers: seq<LiveWatcher>)
        returns (views: map<LiveBattle, View>)
      requires n <= ws.Length && |watchers| == n && (forall i :: 0 <= i < n ==> ws[i] == watchers[i])
      ensures forall w :: w in watchers ==> w.b in views && views[w.b] == w.b.Shows()
    {
      views := map[];
      for i := 0 to n
        invariant forall j :: 0 <= j < i ==> watchers[j].b in views
        invariant forall b :: b in views ==> views[b] == b.Shows()
      {
        var w: LiveWatcher := ws[i];
        views := views[w.b := w.b.Shows()];
      }
    }

    method Order(ws: array<LiveWatcher?>, n: nat, turn: nat, ghost watchers: seq<LiveWatcher>)
        returns (order: seq<LiveWatcher>)
      requires n <= ws.Length && |watchers| == n && (forall i :: 0 <= i < n ==> ws[i] == watchers[i])
      ensures order == Rotated(watchers, turn)
    {
      order := [];
      for i := 0 to n
        invariant |order| == i
        invariant forall j :: 0 <= j < i ==> order[j] == Rotated(watchers, turn)[j]
      {
        var w: LiveWatcher := ws[(i + turn) % n];
        order := order + [w];
      }
    }

    /** The places behind the watchers kept hold none. */
    method Forget(ws: array<LiveWatcher?>, k: nat, n: nat)
      requires k <= n <= ws.Length
      modifies ws
      ensures ws[..k] == old(ws[..k]) && forall j :: k <= j < n ==> ws[j] == null
    {
      for i := k to n
        invariant ws[..k] == old(ws[..k])
        invariant forall j :: k <= j < i ==> ws[j] == null
      {
        ws[i] := null;
      }
    }
  }
}
