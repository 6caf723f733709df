/** The live streams of pkg/lobby/spectator.go as a state machine: uploads append, spectators come and go,
    and one writer sends each of them, in partial writes, what its last look at the uploads showed. */
module SpectatorFanout {
  import opened Wrappers
  import opened Bytes

  const MAX_BYTES: nat := 0x200_0000
  const RETENTION: int := 600_000_000_000
  const IDLE: int := 600_000_000_000
  const STALL: int := 30_000_000_000
  const MAX_SPECTATORS: int := 4096
  const MAX_BATTLE_WATCHERS: int := 512

  datatype Battle = Battle(code: string, session: int, openedAt: int, uploading: bool, uploaded: bool,
                           done: Option<int>, buf: seq<byte>, watchers: int)

  /** How a write ends: with all of the data, at its deadline, or by the connection. */
  datatype WriteError = NoError | DeadlineExceeded | OtherError

  /** What a spectator is sent: its response header, what of it is not written yet, the position in the
      upload, and all bytes written. */
  datatype Stream = Stream(header: seq<byte>, pre: seq<byte>, pos: nat, sent: seq<byte>)

  /** A spectator: counted by pick, owned by the writer after joining, or no longer counted. progress is when
      something was last written, failed whether the last write broke the connection, finished whether it
      was dropped as complete. */
  datatype Client =
    | Picked(battle: nat)
    | Watching(battle: nat, stream: Stream, progress: int, failed: bool)
    | Gone(battle: nat, stream: Stream, finished: bool)

  /** What deliver saw of a battle under the lock: a slice of the append-only buffer. */
  datatype View = View(buf: seq<byte>, done: bool)

  /** Battles and clients are identified by their index; codes holds the battles still listed. */
  datatype State = State(battles: seq<Battle>, codes: map<string, nat>, clients: seq<Client>, nwatchers: int,
                         views: map<nat, View>)

  const INIT := State([], map[], [], 0, map[])

  /** Why a watcher is dropped; a stopped writer drops all. */
  datatype DropReason = ConnectionFailed | Stalled(now: int) | Finished | WriterStopped

  datatype Step =
    | Open(code: string, session: int, now: int)
    | StartUpload(code: string, session: int)
    | Add(battle: nat, data: seq<byte>)
    | EndUpload(battle: nat, now: int)
    | Pick(battle: nat)
    | Unpick(client: nat)
    | Join(client: nat, header: seq<byte>, now: int)
    | Look
    | WriteSome(client: nat, n: nat, err: WriteError, now: int)
    | Drop(client: nat, reason: DropReason)
    | Tick(now: int)

  predicate Listed(st: State, b: nat) {
    b < |st.battles| && st.battles[b].code in st.codes && st.codes[st.battles[b].code] == b
  }

  function NewStream(header: seq<byte>): Stream {
    Stream(header, header, 0, [])
  }

  /** The data of the next write: the rest of the header, then what the upload has more. */
  function NextData(s: Stream, buf: seq<byte>): seq<byte> {
    if s.pre != [] then s.pre else if s.pos <= |buf| then buf[s.pos..] else []
  }

  function Wrote(s: Stream, buf: seq<byte>, n: nat): Stream
    requires n <= |NextData(s, buf)|
  {
    var sent := s.sent + NextData(s, buf)[..n];
    if s.pre != [] then s.(pre := s.pre[n..], sent := sent) else s.(pos := s.pos + n, sent := sent)
  }

  predicate AllSent(s: Stream, buf: seq<byte>) {
    s.pre == [] && s.pos == |buf|
  }

  predicate Complete(s: Stream, v: View) {
    v.done && AllSent(s, v.buf)
  }

  // ---- What happens to a battle -------------------------------------------------------------

  function Opened(code: string, session: int, now: int): Battle {
    Battle(code, session, now, false, false, None, [], 0)
  }

  predicate MayStart(b: Battle, session: int) {
    b.session == session && !b.uploaded
  }

  function Started(b: Battle): Battle {
    b.(uploading := true, uploaded := true)
  }

  function Extended(b: Battle, data: seq<byte>): Battle {
    if |b.buf| + |data| > MAX_BYTES then b else b.(buf := b.buf + data)
  }

  function Ended(b: Battle, now: int): Battle {
    b.(uploading := false, done := Some(now))
  }

  /** n spectators more. */
  function Recounted(b: Battle, n: int): Battle {
    b.(watchers := b.watchers + n)
  }

  predicate Admits(b: Battle, nwatchers: int) {
    b.uploaded && nwatchers < MAX_SPECTATORS && b.watchers < MAX_BATTLE_WATCHERS
  }

  predicate Expired(b: Battle, now: int) {
    (b.done.Some? && now - b.done.value > RETENTION) || (!b.uploaded && now - b.openedAt > IDLE)
  }

  function Shown(b: Battle): View {
    View(b.buf, b.done.Some?)
  }

  /** The limits: an upload takes what keeps it within 32 MiB; there are at most 512 spectators of a battle
      and 4096 of all; a battle is listed for ten minutes after its upload, and for ten minutes without one. */
  lemma Limits(b: Battle, data: seq<byte>, nwatchers: int, now: int)
    ensures Extended(b, data).buf == b.buf + data <==> |b.buf| + |data| <= 32 * 1024 * 1024 || data == []
    ensures b.uploaded ==> (Admits(b, nwatchers) <==> nwatchers < 4096 && b.watchers < 512)
    ensures b.done.Some? && b.uploaded ==> (Expired(b, now) <==> now > b.done.value + 600 * 1_000_000_000)
    ensures b.done.None? && b.uploaded ==> !Expired(b, now)
    ensures b.done.None? && !b.uploaded ==> (Expired(b, now) <==> now > b.openedAt + 600 * 1_000_000_000)
  {
    if data == [] {
      assert b.buf + data == b.buf;
    } else {
      assert |b.buf + data| != |b.buf|;
    }
  }

  // ---- Steps --------------------------------------------------------------------------------

  /** Why a watcher may be dropped: its last write broke the connection, it has made no progress for more than
      half a minute, it has the whole of an ended upload, or the writer was stopped. */
  predicate MayDrop(w: Client, views: map<nat, View>, reason: DropReason)
    requires w.Watching?
  {
    match reason
    case ConnectionFailed => w.failed
    case Stalled(now) => now - w.progress > STALL
    case Finished => w.battle in views && Complete(w.stream, views[w.battle])
    case WriterStopped => true
  }

  predicate Enabled(st: State, step: Step) {
    match step
    case Open(_, _, _) => true
    case StartUpload(_, _) => true
    case Add(b, _) => b < |st.battles| && st.battles[b].uploading
    case EndUpload(b, _) => b < |st.battles| && st.battles[b].uploading
    case Pick(b) => Listed(st, b)
    case Unpick(c) => c < |st.clients| && st.clients[c].Picked?
    case Join(c, _, _) => c < |st.clients| && st.clients[c].Picked?
    case Look => true
    case WriteSome(c, n, err, _) =>
      c < |st.clients| && st.clients[c].Watching? && st.clients[c].battle in st.views
      && var data := NextData(st.clients[c].stream, st.views[st.clients[c].battle].buf);
         data != [] && n <= |data| && (n < |data| ==> err != NoError)
    case Drop(c, reason) =>
      c < |st.clients| && st.clients[c].Watching? && MayDrop(st.clients[c], st.views, reason)
    case Tick(_) => true
  }

  function WithBattle(st: State, b: nat, battle: Battle): State
    requires b < |st.battles|
  {
    st.(battles := st.battles[b := battle])
  }

  /** One spectator less for battle b. */
  function Uncount(st: State, b: nat): State {
    if b < |st.battles| then WithBattle(st, b, Recounted(st.battles[b], -1)).(nwatchers := st.nwatchers - 1) else st
  }

  function Next(st: State, step: Step): State
    requires Enabled(st, step)
  {
    match step
    case Open(code, session, now) =>
      if code in st.codes then st
      else st.(battles := st.battles + [Opened(code, session, now)], codes := st.codes[code := |st.battles|])
    case StartUpload(code, session) =>
      if code in st.codes && st.codes[code] < |st.battles| && MayStart(st.battles[st.codes[code]], session)
      then WithBattle(st, st.codes[code], Started(st.battles[st.codes[code]])) else st
    case Add(b, data) => WithBattle(st, b, Extended(st.battles[b], data))
    case EndUpload(b, now) => WithBattle(st, b, Ended(st.battles[b], now))
    case Pick(b) =>
      if !Admits(st.battles[b], st.nwatchers) then st
      else WithBattle(st, b, Recounted(st.battles[b], 1)).(nwatchers := st.nwatchers + 1,
                                                           clients := st.clients + [Picked(b)])
    case Unpick(c) =>
      var b := st.clients[c].battle;
      Uncount(st.(clients := st.clients[c := Gone(b, NewStream([]), false)]), b)
    case Join(c, header, now) =>
      st.(clients := st.clients[c := Watching(st.clients[c].battle, NewStream(header), now, false)])
    case Look => st.(views := map b: nat | 0 <= b < |st.battles| :: Shown(st.battles[b]))
    case WriteSome(c, n, err, now) =>
      var w := st.clients[c];
      st.(clients := st.clients[c := Watching(w.battle, Wrote(w.stream, st.views[w.battle].buf, n),
                                              if n > 0 then now else w.progress, err == OtherError)])
    case Drop(c, reason) =>
      var w := st.clients[c];
      Uncount(st.(clients := st.clients[c := Gone(w.battle, w.stream, reason == Finished)]), w.battle)
    case Tick(now) =>
      st.(codes := map code | code in st.codes && st.codes[code] < |st.battles|
                   && !Expired(st.battles[st.codes[code]], now) :: st.codes[code])
  }

  // ---- Counting -----------------------------------------------------------------------------

  /** The counted spectators of battle b among the first n (of any battle for None). */
  function CountTo(clients: seq<Client>, n: nat, b: Option<nat>): nat
    requires n <= |clients|
  {
    if n == 0 then 0 else CountTo(clients, n - 1, b) + Weight(clients[n - 1], b)
  }

  function Count(clients: seq<Client>, b: Option<nat>): nat {
    CountTo(clients, |clients|, b)
  }

  /** 1 for a counted spectator of battle b (of any battle for None). */
  function Weight(c: Client, b: Option<nat>): nat {
    if !c.Gone? && (b == None || b == Some(c.battle)) then 1 else 0
  }

  lemma {:induction false} CountOfPrefix(clients: seq<Client>, c: Client, n: nat, b: Option<nat>)
    requires n <= |clients|
    ensures CountTo(clients + [c], n, b) == CountTo(clients, n, b)
  {
    if n > 0 {
      CountOfPrefix(clients, c, n - 1, b);
    }
  }

  lemma CountAppend(clients: seq<Client>, c: Client, b: Option<nat>)
    ensures Count(clients + [c], b) == Count(clients, b) + Weight(c, b)
  {
    CountOfPrefix(clients, c, |clients|, b);
  }

  lemma {:induction false} CountToUpdate(clients: seq<Client>, n: nat, i: nat, c: Client, b: Option<nat>)
    requires i < |clients| && n <= |clients|
    ensures CountTo(clients[i := c], n, b) ==
            CountTo(clients, n, b) + if i < n then Weight(c, b) - Weight(clients[i], b) else 0
  {
    if n > 0 {
      CountToUpdate(clients, n - 1, i, c, b);
    }
  }

  lemma CountUpdate(clients: seq<Client>, i: nat, c: Client, b: Option<nat>)
    requires i < |clients|
    ensures Count(clients[i := c], b) == Count(clients, b) - Weight(clients[i], b) + Weight(c, b)
  {
    CountToUpdate(clients, |clients|, i, c, b);
  }

  // ---- Invariant ----------------------------------------------------------------------------

  ghost predicate Counted(st: State) {
    && st.nwatchers == Count(st.clients, None)
    && (forall b :: 0 <= b < |st.battles| ==> st.battles[b].watchers == Count(st.clients, Some(b)))
    && 0 <= st.nwatchers <= MAX_SPECTATORS
    && (forall b :: 0 <= b < |st.battles| ==> 0 <= st.battles[b].watchers <= MAX_BATTLE_WATCHERS)
  }

  predicate BattleOk(b: Battle) {
    && (b.uploading ==> b.uploaded && b.done.None?)
    && (b.done.Some? ==> b.uploaded && !b.uploading)
    && (!b.uploaded ==> b.buf == [])
    && |b.buf| <= MAX_BYTES
  }

  predicate ViewOk(v: View, b: Battle) {
    v.buf <= b.buf && (v.done ==> b.done.Some? && v.buf == b.buf)
  }

  /** The bytes sent are the header up to pre and then buf up to pos, nothing skipped or repeated. */
  predicate StreamOk(s: Stream, buf: seq<byte>) {
    && |s.pre| <= |s.header| && s.pre == s.header[|s.header| - |s.pre|..]
    && s.pos <= |buf| && (s.pre != [] ==> s.pos == 0)
    && s.sent == s.header[..|s.header| - |s.pre|] + buf[..s.pos]
  }

  predicate ClientOk(c: Client, b: Battle, views: map<nat, View>) {
    match c
    case Picked(_) => b.uploaded
    case Watching(i, s, _, _) => b.uploaded && s.pos <= (if i in views then |views[i].buf| else 0) && StreamOk(s, b.buf)
    case Gone(_, s, finished) => finished ==> b.done.Some? && s.sent == s.header + b.buf
  }

  ghost predicate ClientsOk(clients: seq<Client>, battles: seq<Battle>, views: map<nat, View>) {
    forall c :: 0 <= c < |clients| ==>
      clients[c].battle < |battles| && ClientOk(clients[c], battles[clients[c].battle], views)
  }

  ghost predicate BattlesOk(battles: seq<Battle>, codes: map<string, nat>, views: map<nat, View>) {
    && (forall b :: 0 <= b < |battles| ==> BattleOk(battles[b]))
    && (forall b :: b in views ==> b < |battles| && ViewOk(views[b], battles[b]))
    && (forall code :: code in codes ==> codes[code] < |battles| && battles[codes[code]].code == code)
  }

  ghost predicate Inv(st: State) {
    Counted(st) && BattlesOk(st.battles, st.codes, st.views) && ClientsOk(st.clients, st.battles, st.views)
  }

  /** A battle may change by its upload starting, growing and ending. */
  predicate Grows(b: Battle, b1: Battle) {
    && (b1.code, b1.session, b1.openedAt) == (b.code, b.session, b.openedAt)
    && b.buf <= b1.buf
    && (b.uploaded ==> b1.uploaded)
    && (b.done.Some? ==> b1.done == b.done && b1.buf == b.buf)
  }

  lemma ClientOkGrows(c: Client, b: Battle, b1: Battle, views: map<nat, View>)
    requires ClientOk(c, b, views) && Grows(b, b1)
    ensures ClientOk(c, b1, views)
  {
    if c.Watching? {
      assert b1.buf[..c.stream.pos] == b.buf[..c.stream.pos];
    }
  }

  /** A write continues the stream, of a view or of what the upload has become since. */
  lemma WroteKeeps(s: Stream, view: seq<byte>, buf: seq<byte>, n: nat)
    requires StreamOk(s, buf) && view <= buf && s.pos <= |view| && n <= |NextData(s, view)|
    ensures StreamOk(Wrote(s, view, n), buf) && Wrote(s, view, n).pos <= |view|
  {
    if s.pre != [] {
      HeaderWritten(s, buf, n);
    } else {
      UploadWritten(s, view, buf, n);
    }
  }

  lemma HeaderWritten(s: Stream, buf: seq<byte>, n: nat)
    requires StreamOk(s, buf) && s.pos == 0 && n <= |s.pre|
    ensures StreamOk(s.(pre := s.pre[n..], sent := s.sent + s.pre[..n]), buf)
  {
    HeaderPart(s.header, s.pre, n);
    var done := s.header[..|s.header| - |s.pre|];
    assert done + [] == done && (done + s.pre[..n]) + [] == done + s.pre[..n];
    assert buf[..0] == [];
  }

  lemma UploadWritten(s: Stream, view: seq<byte>, buf: seq<byte>, n: nat)
    requires StreamOk(s, buf) && s.pre == [] && view <= buf && s.pos <= |view| && n <= |view[s.pos..]|
    ensures StreamOk(s.(pos := s.pos + n, sent := s.sent + view[s.pos..][..n]), buf)
  {
    var pos := s.pos;
    assert view[pos..][..n] == view[pos..pos + n];
    UploadPart(view, buf, pos, n);
    var done := s.header[..|s.header|];
    assert (done + buf[..pos]) + buf[pos..pos + n] == done + (buf[..pos] + buf[pos..pos + n]);
  }

  lemma HeaderPart(header: seq<byte>, pre: seq<byte>, n: nat)
    requires n <= |pre| <= |header| && pre == header[|header| - |pre|..]
    ensures header[..|header| - |pre|] + pre[..n] == header[..|header| - |pre| + n]
    ensures pre[n..] == header[|header| - |pre| + n..]
  {
  }

  lemma UploadPart(view: seq<byte>, buf: seq<byte>, pos: nat, n: nat)
    requires view <= buf && pos + n <= |view|
    ensures view[pos..pos + n] == buf[pos..pos + n]
    ensures buf[..pos] + buf[pos..pos + n] == buf[..pos + n]
  {
  }

  /** Steps that change one battle's upload. */
  lemma BattleStepKeeps(st: State, i: nat, b1: Battle)
    requires Inv(st) && i < |st.battles|
    requires Grows(st.battles[i], b1) && BattleOk(b1) && b1.watchers == st.battles[i].watchers
    ensures Inv(st.(battles := st.battles[i := b1]))
  {
    var st1 := st.(battles := st.battles[i := b1]);
    forall c | 0 <= c < |st1.clients|
      ensures st1.clients[c].battle < |st1.battles|
              && ClientOk(st1.clients[c], st1.battles[st1.clients[c].battle], st1.views)
    {
      var k := st.clients[c].battle;
      ClientOkGrows(st.clients[c], st.battles[k], st1.battles[k], st.views);
    }
  }

  lemma OpenKeeps(st: State, step: Step)
    requires Inv(st) && step.Open?
    ensures Inv(Next(st, step))
  {
    var st1 := Next(st, step);
    if step.code !in st.codes {
      NobodyWatches(st.clients, |st.clients|, |st.battles|);
    }
  }

  lemma {:induction false} NobodyWatches(clients: seq<Client>, n: nat, b: nat)
    requires n <= |clients| && forall c :: 0 <= c < |clients| ==> clients[c].battle < b
    ensures CountTo(clients, n, Some(b)) == 0
  {
    if n > 0 {
      NobodyWatches(clients, n - 1, b);
    }
  }

  lemma PickKeeps(st: State, b: nat)
    requires Inv(st) && Enabled(st, Pick(b))
    ensures Inv(Next(st, Pick(b)))
  {
    if Admits(st.battles[b], st.nwatchers) {
      PickKeepsCounts(st, b);
      OnlyCountChanged(st, Next(st, Pick(b)).battles);
      OneClientMore(st.clients, Picked(b), Next(st, Pick(b)).battles, st.views);
    }
  }

  lemma OneClientMore(clients: seq<Client>, c: Client, battles: seq<Battle>, views: map<nat, View>)
    requires ClientsOk(clients, battles, views) && c.battle < |battles| && ClientOk(c, battles[c.battle], views)
    ensures ClientsOk(clients + [c], battles, views)
  {
  }

  lemma PickKeepsCounts(st: State, b: nat)
    requires Counted(st) && b < |st.battles| && Enabled(st, Pick(b)) && Admits(st.battles[b], st.nwatchers)
    ensures Counted(Next(st, Pick(b)))
  {
    var st1 := Next(st, Pick(b));
    CountAppend(st.clients, Picked(b), None);
    forall k | 0 <= k < |st1.battles|
      ensures st1.battles[k].watchers == Count(st1.clients, Some(k)) <= MAX_BATTLE_WATCHERS
    {
      CountAppend(st.clients, Picked(b), Some(k));
    }
  }

  /** Clients do not depend on the spectator counts. */
  lemma OnlyCountChanged(st: State, battles1: seq<Battle>)
    requires Inv(st) && |battles1| == |st.battles|
    requires forall k :: 0 <= k < |battles1| ==> battles1[k] == st.battles[k].(watchers := battles1[k].watchers)
    ensures ClientsOk(st.clients, battles1, st.views) && BattlesOk(battles1, st.codes, st.views)
  {
    forall c | 0 <= c < |st.clients|
      ensures ClientOk(st.clients[c], battles1[st.clients[c].battle], st.views)
    {
      var k := st.clients[c].battle;
      ClientOkGrows(st.clients[c], st.battles[k], battles1[k], st.views);
    }
  }

  /** A counted client leaves: unpick and drop. */
  lemma LeaveKeeps(st: State, c: nat, gone: Client)
    requires Inv(st) && c < |st.clients| && !st.clients[c].Gone?
    requires gone.Gone? && gone.battle == st.clients[c].battle && ClientOk(gone, st.battles[gone.battle], st.views)
    ensures Inv(Uncount(st.(clients := st.clients[c := gone]), gone.battle))
  {
    var b := gone.battle;
    var st1 := Uncount(st.(clients := st.clients[c := gone]), b);
    CountUpdate(st.clients, c, gone, None);
    CountBounds(st1.clients, Some(b));
    forall k | 0 <= k < |st1.battles|
      ensures st1.battles[k].watchers == Count(st1.clients, Some(k))
    {
      CountUpdate(st.clients, c, gone, Some(k));
    }
    OnlyCountChanged(st, st1.battles);
    ClientOkGrows(gone, st.battles[b], st1.battles[b], st.views);
  }

  lemma CountBounds(clients: seq<Client>, b: Option<nat>)
    ensures Count(clients, b) >= 0 && Count(clients, None) >= 0
  {
  }

  lemma JoinKeeps(st: State, c: nat, header: seq<byte>, now: int)
    requires Inv(st) && Enabled(st, Join(c, header, now))
    ensures Inv(Next(st, Join(c, header, now)))
  {
    var w := Watching(st.clients[c].battle, NewStream(header), now, false);
    CountUpdate(st.clients, c, w, None);
    forall k | 0 <= k < |st.battles|
      ensures Count(st.clients[c := w], Some(k)) == Count(st.clients, Some(k))
    {
      CountUpdate(st.clients, c, w, Some(k));
    }
    assert header[0..] == header && header[..0] + st.battles[w.battle].buf[..0] == [];
  }

  lemma WriteKeeps(st: State, step: Step)
    requires Inv(st) && step.WriteSome? && Enabled(st, step)
    ensures Inv(Next(st, step))
  {
    var w, w1 := st.clients[step.client], Next(st, step).clients[step.client];
    WroteKeeps(w.stream, st.views[w.battle].buf, st.battles[w.battle].buf, step.n);
    CountUpdate(st.clients, step.client, w1, None);
    forall k | 0 <= k < |st.battles|
      ensures Count(st.clients[step.client := w1], Some(k)) == Count(st.clients, Some(k))
    {
      CountUpdate(st.clients, step.client, w1, Some(k));
    }
  }

  lemma LookKeeps(st: State)
    requires Inv(st)
    ensures Inv(Next(st, Look))
  {
    var st1 := Next(st, Look);
    forall c | 0 <= c < |st.clients|
      ensures ClientOk(st.clients[c], st.battles[st.clients[c].battle], st1.views)
    {
      assert ClientOk(st.clients[c], st.battles[st.clients[c].battle], st.views);
    }
  }

  /** Complete in a view of an ended upload means everything was written. */
  lemma CompleteHasAll(s: Stream, b: Battle, v: View)
    requires StreamOk(s, b.buf) && ViewOk(v, b) && Complete(s, v)
    ensures b.done.Some? && s.sent == s.header + b.buf
  {
    assert s.header[..|s.header|] == s.header && b.buf[..|b.buf|] == b.buf;
  }

  lemma NextKeepsInv(st: State, step: Step)
    requires Inv(st) && Enabled(st, step)
    ensures Inv(Next(st, step))
  {
    match step {
      case Open(_, _, _) => OpenKeeps(st, step);
      case StartUpload(code, session) =>
        if Next(st, step) != st {
          var b := st.codes[code];
          BattleStepKeeps(st, b, Started(st.battles[b]));
        }
      case Add(b, data) =>
        BattleStepKeeps(st, b, Extended(st.battles[b], data));
      case EndUpload(b, now) => BattleStepKeeps(st, b, Ended(st.battles[b], now));
      case Pick(b) => PickKeeps(st, b);
      case Unpick(c) => LeaveKeeps(st, c, Gone(st.clients[c].battle, NewStream([]), false));
      case Join(c, header, now) => JoinKeeps(st, c, header, now);
      case Look => LookKeeps(st);
      case WriteSome(_, _, _, _) => WriteKeeps(st, step);
      case Drop(c, reason) =>
        var w := st.clients[c];
        if reason == Finished {
          CompleteHasAll(w.stream, st.battles[w.battle], st.views[w.battle]);
        }
        LeaveKeeps(st, c, Gone(w.battle, w.stream, reason == Finished));
      case Tick(_) =>
    }
  }

  // ---- Runs ---------------------------------------------------------------------------------

  function Run(st: State, steps: seq<Step>): Option<State>
    decreases |steps|
  {
    if steps == [] then Some(st)
    else if !Enabled(st, steps[0]) then None
    else Run(Next(st, steps[0]), steps[1..])
  }

  lemma {:induction false} RunKeepsInv(st: State, steps: seq<Step>)
    requires Inv(st) && Run(st, steps).Some?
    ensures Inv(Run(st, steps).value)
    decreases |steps|
  {
    if steps != [] {
      NextKeepsInv(st, steps[0]);
      RunKeepsInv(Next(st, steps[0]), steps[1..]);
    }
  }

  /** In every interleaving: each spectator has been sent its header and then the upload from its first byte
      to pos, whenever it joined, and one dropped as finished has the whole of an ended upload. */
  lemma StreamsAreExact(steps: seq<Step>, c: nat)
    requires Run(INIT, steps).Some? && c < |Run(INIT, steps).value.clients|
    ensures var st := Run(INIT, steps).value;
            var client := st.clients[c];
            && client.battle < |st.battles|
            && (client.Picked? ||
                var (b, s) := (st.battles[client.battle], client.stream);
                && (client.Watching? ==>
                      && |s.pre| <= |s.header| && s.pos <= |b.buf| && (s.pre != [] ==> s.pos == 0)
                      && s.sent == s.header[..|s.header| - |s.pre|] + b.buf[..s.pos])
                && (client.Gone? && client.finished ==> b.done.Some? && s.sent == s.header + b.buf))
  {
    RunKeepsInv(INIT, steps);
    var st := Run(INIT, steps).value;
    assert ClientOk(st.clients[c], st.battles[st.clients[c].battle], st.views);
  }

  /** In every interleaving the counters are the numbers of spectators picked and not yet dropped. */
  lemma CountersAreExact(steps: seq<Step>)
    requires Run(INIT, steps).Some?
    ensures var st := Run(INIT, steps).value;
            && st.nwatchers == Count(st.clients, None) <= 4096
            && st.nwatchers == SumWatchers(st.battles)
            && forall b :: 0 <= b < |st.battles| ==>
                st.battles[b].watchers == Count(st.clients, Some(b)) <= 512
  {
    RunKeepsInv(INIT, steps);
    var st := Run(INIT, steps).value;
    SumIsCount(st.battles, st.clients);
  }

  function SumWatchers(battles: seq<Battle>): int {
    if battles == [] then 0 else SumWatchers(battles[..|battles| - 1]) + battles[|battles| - 1].watchers
  }

  /** Spectators of battles below n among the first m. */
  function CountBelow(clients: seq<Client>, m: nat, n: nat): nat
    requires m <= |clients|
  {
    if m == 0 then 0
    else CountBelow(clients, m - 1, n) + if !clients[m - 1].Gone? && clients[m - 1].battle < n then 1 else 0
  }

  lemma {:induction false} CountBelowStep(clients: seq<Client>, m: nat, n: nat)
    requires m <= |clients|
    ensures CountBelow(clients, m, 0) == 0
    ensures CountBelow(clients, m, n + 1) == CountBelow(clients, m, n) + CountTo(clients, m, Some(n))
    ensures (forall c :: 0 <= c < |clients| ==> clients[c].battle < n) ==>
            CountBelow(clients, m, n) == CountTo(clients, m, None)
  {
    if m > 0 {
      CountBelowStep(clients, m - 1, n);
    }
  }

  lemma {:induction false} SumIsCountBelow(battles: seq<Battle>, clients: seq<Client>)
    requires forall b :: 0 <= b < |battles| ==> battles[b].watchers == Count(clients, Some(b))
    ensures SumWatchers(battles) == CountBelow(clients, |clients|, |battles|)
    decreases |battles|
  {
    if battles == [] {
      CountBelowStep(clients, |clients|, 0);
    } else {
      SumIsCountBelow(battles[..|battles| - 1], clients);
      CountBelowStep(clients, |clients|, |battles| - 1);
    }
  }

  lemma SumIsCount(battles: seq<Battle>, clients: seq<Client>)
    requires forall b :: 0 <= b < |battles| ==> battles[b].watchers == Count(clients, Some(b))
    requires forall c :: 0 <= c < |clients| ==> clients[c].battle < |battles|
    ensures SumWatchers(battles) == Count(clients, None)
  {
    SumIsCountBelow(battles, clients);
    CountBelowStep(clients, |clients|, |battles|);
  }

  /** An ended upload never changes again, and uploads only grow. */
  lemma {:induction false} UploadsOnlyGrow(st: State, steps: seq<Step>, b: nat)
    requires Inv(st) && Run(st, steps).Some? && b < |st.battles|
    ensures b < |Run(st, steps).value.battles| && Grows(st.battles[b], Run(st, steps).value.battles[b])
    decreases |steps|
  {
    if steps != [] {
      var st1 := Next(st, steps[0]);
      NextKeepsInv(st, steps[0]);
      NextGrows(st, steps[0], b);
      UploadsOnlyGrow(st1, steps[1..], b);
      GrowsTwice(st.battles[b], st1.battles[b], Run(st, steps).value.battles[b]);
    }
  }

  lemma NextGrows(st: State, step: Step, b: nat)
    requires Inv(st) && Enabled(st, step) && b < |st.battles|
    ensures b < |Next(st, step).battles| && Grows(st.battles[b], Next(st, step).battles[b])
  {
    assert BattleOk(st.battles[b]);
  }

  lemma GrowsTwice(b: Battle, b1: Battle, b2: Battle)
    requires Grows(b, b1) && Grows(b1, b2)
    ensures Grows(b, b2)
  {
  }

  // ---- The life of a battle -----------------------------------------------------------------

  /** An upload starts exactly by a request for the battle's code with the battle's session. */
  lemma UploadStartsExactly(st: State, step: Step, b: nat)
    requires Enabled(st, step) && b < |st.battles| && !st.battles[b].uploaded
    requires forall code :: code in st.codes ==> st.codes[code] < |st.battles|
    ensures b < |Next(st, step).battles|
    ensures Next(st, step).battles[b].uploaded <==>
            && step.StartUpload? && step.code in st.codes && st.codes[step.code] == b
            && step.session == st.battles[b].session
  {
  }

  /** Opened, uploaded in two parts, and ended: what is left, and for how long it is listed. */
  lemma LifeOfABattle(code: string, session: int, start: int, x: seq<byte>, y: seq<byte>, ended: int, now: int)
    returns (st: State)
    requires |x| + |y| <= 32 * 1024 * 1024
    ensures Run(INIT, [Open(code, session, start), StartUpload(code, session), Add(0, x), Add(0, y),
                       EndUpload(0, ended), Look]) == Some(st)
    ensures st == State([Battle(code, session, start, false, true, Some(ended), x + y, 0)], map[code := 0], [], 0,
                        map[0 := View(x + y, true)])
    ensures !Enabled(st, Add(0, y)) && !Enabled(st, EndUpload(0, now))
    ensures Next(st, Tick(now)).codes == if now - ended <= 600 * 1_000_000_000 then map[code := 0] else map[]
  {
    var s1 := Next(INIT, Open(code, session, start));
    var s2 := Next(s1, StartUpload(code, session));
    var s3 := Next(s2, Add(0, x));
    var s4 := Next(s3, Add(0, y));
    var s5 := Next(s4, EndUpload(0, ended));
    OpenedOnly(code, session, start);
    assert s2 == OneBattle(code, Battle(code, session, start, true, true, None, [], 0));
    assert [] + x == x;
    assert s3 == OneBattle(code, Battle(code, session, start, true, true, None, x, 0));
    assert s4 == OneBattle(code, Battle(code, session, start, true, true, None, x + y, 0));
    assert s5 == OneBattle(code, Battle(code, session, start, false, true, Some(ended), x + y, 0));
    st := Next(s5, Look);
    LookedAtOne(code, Battle(code, session, start, false, true, Some(ended), x + y, 0));
    RunOfSix(INIT, Open(code, session, start), StartUpload(code, session), Add(0, x), Add(0, y), EndUpload(0, ended),
             Look, s1, s2, s3, s4, s5, st);
  }

  /** A battle alone, before the writer looked. */
  function OneBattle(code: string, b: Battle): State {
    State([b], map[code := 0], [], 0, map[])
  }

  lemma OpenedOnly(code: string, session: int, now: int)
    ensures Next(INIT, Open(code, session, now)) ==
            OneBattle(code, Battle(code, session, now, false, false, None, [], 0))
  {
  }

  lemma LookedAtOne(code: string, b: Battle)
    ensures Next(OneBattle(code, b), Look) == OneBattle(code, b).(views := map[0 := View(b.buf, b.done.Some?)])
  {
  }

  lemma RunOfSix(st: State, a: Step, b: Step, c: Step, d: Step, e: Step, f: Step, s1: State, s2: State, s3: State,
                 s4: State, s5: State, s6: State)
    requires Enabled(st, a) && s1 == Next(st, a) && Enabled(s1, b) && s2 == Next(s1, b)
    requires Enabled(s2, c) && s3 == Next(s2, c) && Enabled(s3, d) && s4 == Next(s3, d)
    requires Enabled(s4, e) && s5 == Next(s4, e) && Enabled(s5, f) && s6 == Next(s5, f)
    ensures Run(st, [a, b, c, d, e, f]) == Some(s6)
  {
    assert Run(s6, []) == Some(s6);
    assert Run(s5, [f]) == Run(s6, [f][1..]);
    assert Run(s4, [e, f]) == Run(s5, [e, f][1..]) && [e, f][1..] == [f];
    assert Run(s3, [d, e, f]) == Run(s4, [d, e, f][1..]) && [d, e, f][1..] == [e, f];
    assert Run(s2, [c, d, e, f]) == Run(s3, [c, d, e, f][1..]) && [c, d, e, f][1..] == [d, e, f];
    assert Run(s1, [b, c, d, e, f]) == Run(s2, [b, c, d, e, f][1..]) && [b, c, d, e, f][1..] == [c, d, e, f];
    assert [a, b, c, d, e, f][1..] == [b, c, d, e, f];
  }
}
