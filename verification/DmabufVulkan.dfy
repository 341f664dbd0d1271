/** clients/simple-dmabuf-vulkan.c: buffers under explicit synchronization. A
    frame's release brings a fence, the next frame on that buffer waits on a
    semaphore that imported it, and the semaphore must outlive that frame.
    Semaphores and frames are numbered in the order of creation, a frame's
    release object bears the frame's number, and a fence descriptor is a token
    that is never reused. */
module DmabufVulkan {
  import opened Options

  const NUM_BUFFERS := 4

  type Semaphore = nat
  type Frame = nat

  /** VK_NULL_HANDLE and NULL are None; a fence of -1 is none. */
  datatype Buffer = Buffer(
    busy: bool, releaseFence: int, releaseSemaphore: Option<Semaphore>, prevReleaseSemaphore: Option<Semaphore>,
    bufferRelease: Option<Frame>)

  /** What was asked of Vulkan and of the compositor, in order: for every
      semaphore the buffer it was created for and the frame that waits on it, the
      semaphores destroyed, the fences imported, for every fence received the
      buffer it came for, and for every live release object its listener's data. */
  datatype Log = Log(
    homes: seq<nat>, waits: seq<Frame>, destroyed: seq<Semaphore>, imported: seq<int>, fences: map<int, nat>,
    frames: Frame, released: set<Frame>, listeners: map<Frame, nat>)

  datatype State = State(explicitSync: bool, buffers: seq<Buffer>, log: Log, aborted: bool)

  datatype Event =
    | Redraw
    | FencedRelease(release: Frame, fence: int)
    | ImmediateRelease(release: Frame)
    | BufferRelease(index: nat)

  /** The compositor addresses live objects, each fence is a new valid
      descriptor, and nothing follows an abort. */
  predicate Allowed(s: State, ev: Event) {
    && !s.aborted
    && match ev
       case Redraw => true
       case FencedRelease(release, fence) => release in s.log.listeners && fence >= 0 && fence !in s.log.fences
       case ImmediateRelease(release) => release in s.log.listeners
       case BufferRelease(index) => !s.explicitSync && index < |s.buffers|
  }

  /** window_next_buffer: the first idle buffer, or the number of buffers. */
  function NextBuffer(buffers: seq<Buffer>): (n: nat)
    ensures n <= |buffers|
    ensures n < |buffers| ==> !buffers[n].busy
    ensures forall i :: 0 <= i < n ==> buffers[i].busy
  {
    if buffers == [] || !buffers[0].busy then 0 else 1 + NextBuffer(buffers[1..])
  }

  predicate NewFence(log: Log, fence: Option<int>) {
    fence.Some? ==> fence.value >= 0 && fence.value !in log.fences
  }

  function Wait(b: Buffer, n: nat, log: Log): (Buffer, Log) {
    if b.releaseFence >= 0 then
      (b.(releaseSemaphore := Some(|log.homes|), releaseFence := -1),
       log.(homes := log.homes + [n], waits := log.waits + [log.frames], imported := log.imported + [b.releaseFence]))
    else (b.(releaseSemaphore := None), log)
  }

  function Submit(b: Buffer, n: nat, log: Log, explicitSync: bool): (Buffer, Log) {
    if explicitSync then
      (b.(busy := true, bufferRelease := Some(log.frames)),
       log.(frames := log.frames + 1, listeners := log.listeners[log.frames := n]))
    else (b.(busy := true), log.(frames := log.frames + 1))
  }

  function Released(b: Buffer, log: Log): (Buffer, Log) {
    var destroyed :=
      if b.prevReleaseSemaphore.Some? then log.destroyed + [b.prevReleaseSemaphore.value] else log.destroyed;
    (b.(prevReleaseSemaphore := b.releaseSemaphore, busy := false, bufferRelease := None),
     log.(destroyed := destroyed))
  }

  function Drop(log: Log, release: Frame): Log {
    log.(listeners := log.listeners - {release}, released := log.released + {release})
  }

  function Draw(s: State, n: nat): State
    requires n < |s.buffers|
  {
    var (b, log) := Wait(s.buffers[n], n, s.log);
    var (c, after) := Submit(b, n, log, s.explicitSync);
    s.(buffers := s.buffers[n := c], log := after)
  }

  function Release(s: State, release: Frame, fence: Option<int>): State
    requires release in s.log.listeners && s.log.listeners[release] < |s.buffers|
  {
    var n := s.log.listeners[release];
    var (b, log) := Released(s.buffers[n], s.log);
    match fence
    case None => s.(buffers := s.buffers[n := b], log := Drop(log, release))
    case Some(fd) =>
      s.(buffers := s.buffers[n := b.(releaseFence := fd)], log := Drop(log.(fences := log.fences[fd := n]), release))
  }

  function Step(s: State, ev: Event): State
    requires Allowed(s, ev) && ListenersMatch(s)
  {
    match ev
    case Redraw =>
      var n := NextBuffer(s.buffers);
      if n == |s.buffers| then s.(aborted := true) else Draw(s, n)
    case FencedRelease(release, fence) => Release(s, release, Some(fence))
    case ImmediateRelease(release) => Release(s, release, None)
    case BufferRelease(index) => s.(buffers := s.buffers[index := s.buffers[index].(busy := false)])
  }

  function Initial(explicitSync: bool): State {
    State(explicitSync, seq(NUM_BUFFERS, _ => Buffer(false, -1, None, None, None)),
          Log([], [], [], [], map[], 0, {}, map[]), false)
  }

  // ---------- The invariant ----------

  /** A live release object's listener data is the buffer that holds it. */
  predicate ListenersMatch(s: State) {
    forall r :: r in s.log.listeners ==>
      s.log.listeners[r] < |s.buffers| && s.buffers[s.log.listeners[r]].bufferRelease == Some(r)
  }

  predicate Holds(b: Buffer, h: Semaphore) {
    b.releaseSemaphore == Some(h) || b.prevReleaseSemaphore == Some(h)
  }

  /** Nothing is used without explicit synchronization; with it, a buffer is busy
      exactly while it holds its release object, and then has no fence yet. */
  predicate BufferTidy(b: Buffer, explicitSync: bool) {
    if explicitSync then
      && (b.busy <==> b.bufferRelease.Some?)
      && b.releaseFence >= -1
      && (!b.busy ==> b.prevReleaseSemaphore == b.releaseSemaphore)
      && (b.busy ==> b.releaseFence == -1)
      && (b.busy && b.releaseSemaphore.Some? ==> b.prevReleaseSemaphore != b.releaseSemaphore)
    else b == Buffer(b.busy, -1, None, None, None)
  }

  /** What buffer n holds is its own and alive. Its semaphores are waited on by
      released frames only, except the one of the frame being shown. */
  predicate BufferOwns(b: Buffer, n: nat, log: Log) {
    && (b.bufferRelease.Some? ==> b.bufferRelease.value in log.listeners && log.listeners[b.bufferRelease.value] == n)
    && (b.releaseFence >= 0 ==>
          b.releaseFence in log.fences && log.fences[b.releaseFence] == n && b.releaseFence !in log.imported)
    && (b.prevReleaseSemaphore.Some? ==>
          var h := b.prevReleaseSemaphore.value;
          Alive(log, h) && log.homes[h] == n && log.waits[h] in log.released)
    && (b.releaseSemaphore.Some? ==>
          var h := b.releaseSemaphore.value;
          Alive(log, h) && log.homes[h] == n && (log.waits[h] in log.released || b.bufferRelease == Some(log.waits[h])))
  }

  predicate Alive(log: Log, h: Semaphore) {
    h < |log.homes| == |log.waits| && h !in log.destroyed
  }

  ghost predicate AtMostOnce(s: seq<int>) {
    forall x :: multiset(s)[x] <= 1
  }

  ghost predicate LogTidy(log: Log) {
    && |log.homes| == |log.waits|
    && AtMostOnce(log.destroyed) && AtMostOnce(log.imported)
    && (forall h :: h in log.destroyed ==> h < |log.homes| && log.waits[h] in log.released)
    && (forall r :: r in log.listeners ==> r < log.frames && r !in log.released)
    && (forall r :: r in log.released ==> r < log.frames)
    && (forall fd :: fd in log.imported ==> fd in log.fences)
  }

  /** Nothing is lost: a semaphore is destroyed or held by the buffer it was
      created for, a fence is imported or held by the buffer it came for. */
  predicate NothingLost(s: State) {
    && (forall h :: 0 <= h < |s.log.homes| ==>
          h in s.log.destroyed || (s.log.homes[h] < |s.buffers| && Holds(s.buffers[s.log.homes[h]], h)))
    && (forall fd :: fd in s.log.fences ==>
          fd in s.log.imported
          || (fd >= 0 && s.log.fences[fd] < |s.buffers| && s.buffers[s.log.fences[fd]].releaseFence == fd))
  }

  ghost predicate Sound(s: State) {
    && |s.buffers| == NUM_BUFFERS
    && ListenersMatch(s) && LogTidy(s.log) && NothingLost(s)
    && (forall n :: 0 <= n < |s.buffers| ==>
          BufferTidy(s.buffers[n], s.explicitSync) && BufferOwns(s.buffers[n], n, s.log))
  }

  // ---------- Every event keeps it ----------

  lemma InitialSound(explicitSync: bool)
    ensures Sound(Initial(explicitSync))
  {
  }

  lemma Once(s: seq<int>, x: int)
    requires AtMostOnce(s) && x !in s
    ensures AtMostOnce(s + [x])
  {
  }

  /** Drawing into idle buffer n. */
  lemma DrawLog(s: State, n: nat)
    requires Sound(s) && n < |s.buffers| && !s.buffers[n].busy
    ensures LogTidy(Draw(s, n).log)
  {
    hide NothingLost, ListenersMatch, AtMostOnce;
    var b := s.buffers[n];
    assert BufferTidy(b, s.explicitSync) && BufferOwns(b, n, s.log);
    if b.releaseFence >= 0 { Once(s.log.imported, b.releaseFence); }
  }

  lemma DrawBuffer(s: State, n: nat)
    requires Sound(s) && n < |s.buffers| && !s.buffers[n].busy
    ensures BufferTidy(Draw(s, n).buffers[n], s.explicitSync) && BufferOwns(Draw(s, n).buffers[n], n, Draw(s, n).log)
  {
    hide NothingLost, ListenersMatch, AtMostOnce;
    assert BufferTidy(s.buffers[n], s.explicitSync) && BufferOwns(s.buffers[n], n, s.log);
  }

  lemma DrawOther(s: State, n: nat, m: nat)
    requires Sound(s) && n < |s.buffers| && !s.buffers[n].busy && m < |s.buffers| && m != n
    ensures BufferOwns(s.buffers[m], m, Draw(s, n).log)
  {
    hide NothingLost, ListenersMatch, AtMostOnce;
    assert BufferOwns(s.buffers[n], n, s.log) && BufferOwns(s.buffers[m], m, s.log);
  }

  lemma DrawKeepsAll(s: State, n: nat)
    requires Sound(s) && n < |s.buffers| && !s.buffers[n].busy
    ensures NothingLost(Draw(s, n)) && ListenersMatch(Draw(s, n))
  {
    hide AtMostOnce;
    assert BufferTidy(s.buffers[n], s.explicitSync) && BufferOwns(s.buffers[n], n, s.log);
  }

  lemma DrawSound(s: State, n: nat)
    requires Sound(s) && n < |s.buffers| && !s.buffers[n].busy
    ensures Sound(Draw(s, n))
  {
    DrawLog(s, n);
    DrawKeepsAll(s, n);
    DrawBuffer(s, n);
    var t := Draw(s, n);
    forall m | 0 <= m < |t.buffers|
      ensures BufferTidy(t.buffers[m], t.explicitSync) && BufferOwns(t.buffers[m], m, t.log)
    {
      hide Draw, NothingLost, ListenersMatch, LogTidy, BufferTidy, BufferOwns;
      if m != n { DrawOther(s, n, m); DrawFrame(s, n); }
    }
    DrawFrame(s, n);
  }

  lemma DrawFrame(s: State, n: nat)
    requires n < |s.buffers|
    ensures |Draw(s, n).buffers| == |s.buffers| && Draw(s, n).explicitSync == s.explicitSync
    ensures forall m :: 0 <= m < |s.buffers| && m != n ==> Draw(s, n).buffers[m] == s.buffers[m]
  {
  }

  /** A live release object means explicit synchronization, and both asserts of
      the release handlers hold. */
  lemma HandlerAssertsHold(s: State, release: Frame)
    requires Sound(s) && release in s.log.listeners
    ensures s.explicitSync && s.log.listeners[release] < |s.buffers|
    ensures var b := s.buffers[s.log.listeners[release]];
            b.bufferRelease == Some(release) && b.busy && b.releaseFence == -1
  {
    assert BufferTidy(s.buffers[s.log.listeners[release]], s.explicitSync);
  }

  lemma ReleaseLog(s: State, release: Frame, fence: Option<int>)
    requires Sound(s) && release in s.log.listeners && NewFence(s.log, fence)
    ensures LogTidy(Release(s, release, fence).log)
  {
    hide NothingLost, AtMostOnce;
    HandlerAssertsHold(s, release);
    var b := s.buffers[s.log.listeners[release]];
    assert BufferOwns(b, s.log.listeners[release], s.log);
    if b.prevReleaseSemaphore.Some? { Once(s.log.destroyed, b.prevReleaseSemaphore.value); }
  }

  lemma ReleaseBuffer(s: State, release: Frame, fence: Option<int>)
    requires Sound(s) && release in s.log.listeners && NewFence(s.log, fence)
    ensures var t, n := Release(s, release, fence), s.log.listeners[release];
            BufferTidy(t.buffers[n], t.explicitSync) && BufferOwns(t.buffers[n], n, t.log)
  {
    hide NothingLost, AtMostOnce;
    HandlerAssertsHold(s, release);
    var n := s.log.listeners[release];
    assert BufferTidy(s.buffers[n], s.explicitSync) && BufferOwns(s.buffers[n], n, s.log);
  }

  lemma ReleaseOther(s: State, release: Frame, fence: Option<int>, m: nat)
    requires Sound(s) && release in s.log.listeners && NewFence(s.log, fence)
    requires m < |s.buffers| && m != s.log.listeners[release]
    ensures BufferOwns(s.buffers[m], m, Release(s, release, fence).log)
  {
    hide NothingLost, AtMostOnce;
    HandlerAssertsHold(s, release);
    var n := s.log.listeners[release];
    assert BufferOwns(s.buffers[n], n, s.log) && BufferOwns(s.buffers[m], m, s.log);
  }

  lemma ReleaseKeepsAll(s: State, release: Frame, fence: Option<int>)
    requires Sound(s) && release in s.log.listeners && NewFence(s.log, fence)
    ensures NothingLost(Release(s, release, fence)) && ListenersMatch(Release(s, release, fence))
  {
    hide AtMostOnce;
    HandlerAssertsHold(s, release);
    var n := s.log.listeners[release];
    assert BufferTidy(s.buffers[n], s.explicitSync) && BufferOwns(s.buffers[n], n, s.log);
  }

  lemma ReleaseFrame(s: State, release: Frame, fence: Option<int>)
    requires release in s.log.listeners && s.log.listeners[release] < |s.buffers|
    ensures var t := Release(s, release, fence);
            && |t.buffers| == |s.buffers| && t.explicitSync == s.explicitSync
            && forall m :: 0 <= m < |s.buffers| && m != s.log.listeners[release] ==> t.buffers[m] == s.buffers[m]
  {
  }

  lemma ReleaseSound(s: State, release: Frame, fence: Option<int>)
    requires Sound(s) && release in s.log.listeners && NewFence(s.log, fence)
    ensures Sound(Release(s, release, fence))
  {
    var t := Release(s, release, fence);
    HandlerAssertsHold(s, release);
    hide Release, NothingLost, ListenersMatch, LogTidy, BufferTidy, BufferOwns;
    ReleaseFrame(s, release, fence);
    ReleaseLog(s, release, fence);
    ReleaseKeepsAll(s, release, fence);
    ReleaseBuffer(s, release, fence);
    forall m | 0 <= m < |t.buffers|
      ensures BufferTidy(t.buffers[m], t.explicitSync) && BufferOwns(t.buffers[m], m, t.log)
    {
      if m != s.log.listeners[release] { ReleaseOther(s, release, fence, m); }
    }
  }

  lemma IdleSound(s: State, index: nat)
    requires Sound(s) && !s.explicitSync && index < |s.buffers|
    ensures Sound(s.(buffers := s.buffers[index := s.buffers[index].(busy := false)]))
  {
    hide LogTidy;
    assert BufferTidy(s.buffers[index], s.explicitSync) && BufferOwns(s.buffers[index], index, s.log);
  }

  /** Main result, one step: every event keeps the invariant. */
  lemma StepSound(s: State, ev: Event)
    requires Sound(s) && Allowed(s, ev)
    ensures Sound(Step(s, ev))
  {
    match ev
    case Redraw => StepRedraw(s);
    case FencedRelease(release, fence) => ReleaseSound(s, release, Some(fence));
    case ImmediateRelease(release) => ReleaseSound(s, release, None);
    case BufferRelease(index) => IdleSound(s, index);
  }

  lemma StepRedraw(s: State)
    requires Sound(s) && !s.aborted
    ensures Sound(Step(s, Redraw))
  {
    var n := NextBuffer(s.buffers);
    if n < |s.buffers| { DrawSound(s, n); }
  }

  predicate AllowedRun(s: State, events: seq<Event>)
    decreases |events|
  {
    events == [] || (ListenersMatch(s) && Allowed(s, events[0]) && AllowedRun(Step(s, events[0]), events[1..]))
  }

  function Run(s: State, events: seq<Event>): State
    requires AllowedRun(s, events)
    decreases |events|
  {
    if events == [] then s else Run(Step(s, events[0]), events[1..])
  }

  lemma {:induction false} RunSound(s: State, events: seq<Event>)
    requires Sound(s) && AllowedRun(s, events)
    ensures Sound(Run(s, events))
    decreases |events|
  {
    hide Sound;
    if events != [] {
      StepSound(s, events[0]);
      RunSound(Step(s, events[0]), events[1..]);
    }
  }

  /** Main result: after any run a buffer is busy iff its release object is set,
      an idle one has equal semaphore fields, no fence was imported and no
      semaphore destroyed twice, a destroyed semaphore's frame was released, and
      every semaphore ever created is destroyed or still held. */
  lemma {:induction false} EveryRunKeepsTrack(explicitSync: bool, events: seq<Event>)
    requires AllowedRun(Initial(explicitSync), events)
    ensures var t := Run(Initial(explicitSync), events);
            && (explicitSync ==> forall n :: 0 <= n < |t.buffers| ==>
                  && (t.buffers[n].busy <==> t.buffers[n].bufferRelease.Some?)
                  && (!t.buffers[n].busy ==> t.buffers[n].prevReleaseSemaphore == t.buffers[n].releaseSemaphore))
            && AtMostOnce(t.log.imported) && AtMostOnce(t.log.destroyed)
            && (forall h :: h in t.log.destroyed ==> h < |t.log.waits| && t.log.waits[h] in t.log.released)
            && (forall h :: 0 <= h < |t.log.homes| && h !in t.log.destroyed ==>
                  exists n :: 0 <= n < |t.buffers| && Holds(t.buffers[n], h))
  {
    InitialSound(explicitSync);
    RunSound(Initial(explicitSync), events);
    RunKeepsMode(Initial(explicitSync), events);
    hide Run, AllowedRun, Initial, AtMostOnce, BufferOwns, ListenersMatch;
  }

  lemma {:induction false} RunKeepsMode(s: State, events: seq<Event>)
    requires AllowedRun(s, events)
    ensures Run(s, events).explicitSync == s.explicitSync
    decreases |events|
  {
    if events != [] { RunKeepsMode(Step(s, events[0]), events[1..]); }
  }

  /** The order: what a step destroys was waited on by a frame released before
      that step, and what a frame is submitted to wait on is alive. */
  lemma DestroyedOnlyAfterRelease(s: State, ev: Event)
    requires Sound(s) && Allowed(s, ev)
    ensures var d := Step(s, ev).log.destroyed;
            d == s.log.destroyed
            || exists h: Semaphore :: d == s.log.destroyed + [h] && Alive(s.log, h) && s.log.waits[h] in s.log.released
  {
    hide NothingLost, AtMostOnce, LogTidy;
    match ev
    case FencedRelease(release, _) => ReleaseDestroys(s, release, Some(ev.fence));
    case ImmediateRelease(release) => ReleaseDestroys(s, release, None);
    case _ =>
  }

  lemma ReleaseDestroys(s: State, release: Frame, fence: Option<int>)
    requires Sound(s) && release in s.log.listeners
    ensures var d := Release(s, release, fence).log.destroyed;
            d == s.log.destroyed
            || exists h: Semaphore :: d == s.log.destroyed + [h] && Alive(s.log, h) && s.log.waits[h] in s.log.released
  {
    hide NothingLost, AtMostOnce, LogTidy;
    var n := s.log.listeners[release];
    assert BufferOwns(s.buffers[n], n, s.log);
  }

  /** The release objects held by some buffers. */
  function HeldReleases(buffers: seq<Buffer>): set<Frame> {
    if buffers == [] then {}
    else
      HeldReleases(buffers[..|buffers| - 1])
      + match buffers[|buffers| - 1].bufferRelease case None => {} case Some(r) => {r}
  }

  lemma {:induction false} HeldIff(buffers: seq<Buffer>, r: Frame)
    ensures r in HeldReleases(buffers) <==> exists n :: 0 <= n < |buffers| && buffers[n].bufferRelease == Some(r)
  {
    if buffers != [] {
      var k := |buffers| - 1;
      HeldIff(buffers[..k], r);
      assert forall n :: 0 <= n < k ==> buffers[..k][n] == buffers[n];
    }
  }

  function BusyCount(buffers: seq<Buffer>): nat {
    if buffers == [] then 0 else BusyCount(buffers[..|buffers| - 1]) + if buffers[|buffers| - 1].busy then 1 else 0
  }

  lemma {:induction false} HeldCount(s: State, k: nat)
    requires Sound(s) && s.explicitSync && k <= |s.buffers|
    ensures |HeldReleases(s.buffers[..k])| == BusyCount(s.buffers[..k])
  {
    hide LogTidy, NothingLost, ListenersMatch, BufferOwns;
    if k > 0 {
      HeldCount(s, k - 1);
      assert BufferTidy(s.buffers[k - 1], true);
      assert s.buffers[..k][..k - 1] == s.buffers[..k - 1];
      if s.buffers[k - 1].busy { HeldLast(s, k); }
    }
  }

  lemma HeldLast(s: State, k: nat)
    requires Sound(s) && 0 < k <= |s.buffers| && s.buffers[k - 1].bufferRelease.Some?
    ensures s.buffers[k - 1].bufferRelease.value !in HeldReleases(s.buffers[..k - 1])
  {
    hide LogTidy, NothingLost;
    var r := s.buffers[k - 1].bufferRelease.value;
    HeldIff(s.buffers[..k - 1], r);
    assert BufferOwns(s.buffers[k - 1], k - 1, s.log);
    forall n | 0 <= n < k - 1 ensures s.buffers[n].bufferRelease != Some(r) {
      assert BufferOwns(s.buffers[n], n, s.log);
    }
  }

  lemma {:induction false} AllBusy(buffers: seq<Buffer>)
    ensures BusyCount(buffers) <= |buffers|
    ensures BusyCount(buffers) == |buffers| <==> forall n :: 0 <= n < |buffers| ==> buffers[n].busy
  {
    if buffers != [] {
      var k := |buffers| - 1;
      AllBusy(buffers[..k]);
      assert buffers == buffers[..k] + [buffers[k]];
    }
  }

  /** The live release objects are one per busy buffer, and redraw aborts exactly
      when as many are outstanding as there are buffers. */
  lemma AbortsIff(s: State)
    requires Sound(s) && s.explicitSync && !s.aborted
    ensures |s.log.listeners| == BusyCount(s.buffers)
    ensures Step(s, Redraw).aborted <==> |s.log.listeners| == NUM_BUFFERS
  {
    hide LogTidy, NothingLost, BusyCount, HeldReleases, BufferTidy;
    HeldCount(s, |s.buffers|);
    assert s.buffers[..|s.buffers|] == s.buffers;
    forall r: Frame ensures r in s.log.listeners.Keys <==> r in HeldReleases(s.buffers) {
      HeldIff(s.buffers, r);
      if r in HeldReleases(s.buffers) {
        var n :| 0 <= n < |s.buffers| && s.buffers[n].bufferRelease == Some(r);
        assert BufferOwns(s.buffers[n], n, s.log);
      }
    }
    assert s.log.listeners.Keys == HeldReleases(s.buffers);
    AllBusy(s.buffers);
  }

  // ---------- Drawn until released ----------

  /** The event is the compositor's release of buffer n, in either mode. */
  predicate Frees(s: State, ev: Event, n: nat) {
    match ev
    case Redraw => false
    case FencedRelease(r, _) => r in s.log.listeners && s.log.listeners[r] == n
    case ImmediateRelease(r) => r in s.log.listeners && s.log.listeners[r] == n
    case BufferRelease(index) => index == n
  }

  /** With and without explicit synchronization: a buffer is busy after an event
      exactly if that was the redraw that drew into it, or it was busy before and
      this was not its release. */
  lemma StepBusyIff(s: State, ev: Event, n: nat)
    requires Sound(s) && Allowed(s, ev) && n < |s.buffers|
    ensures var t, drawn := Step(s, ev), ev.Redraw? && n == NextBuffer(s.buffers);
            && |t.buffers| == |s.buffers|
            && (t.buffers[n].busy <==> drawn || (s.buffers[n].busy && !Frees(s, ev, n)))
  {
    hide LogTidy, NothingLost, BufferOwns, BufferTidy;
  }

  /** Some event of the run is its release, in the state it meets. */
  predicate Freed(s: State, events: seq<Event>, n: nat)
    requires AllowedRun(s, events)
    decreases |events|
  {
    events != [] && (Frees(s, events[0], n) || Freed(Step(s, events[0]), events[1..], n))
  }

  /** Over every run: a busy buffer that is not released stays busy, and no frame
      is drawn into it. */
  lemma {:induction false} BusyUntilReleased(s: State, events: seq<Event>, n: nat)
    requires Sound(s) && AllowedRun(s, events) && n < |s.buffers| && s.buffers[n].busy && !Freed(s, events, n)
    ensures var t := Run(s, events); n < |t.buffers| && t.buffers[n].busy && NextBuffer(t.buffers) != n
    decreases |events|
  {
    hide Sound, Step, Frees, Allowed;
    if events != [] {
      AllowedNow(s, events);
      StepSound(s, events[0]);
      StepBusyIff(s, events[0], n);
      BusyNotNext(s, n);
      BusyUntilReleased(Step(s, events[0]), events[1..], n);
    }
  }

  lemma {:induction false} AllowedNow(s: State, events: seq<Event>)
    requires AllowedRun(s, events) && events != []
    ensures Allowed(s, events[0])
  {
  }

  lemma BusyNotNext(s: State, n: nat)
    requires n < |s.buffers| && s.buffers[n].busy
    ensures NextBuffer(s.buffers) != n
  {
  }

  // ---------- Teardown ----------

  /** buffer_free destroys both semaphore fields of a buffer, in this order. */
  function FreeOne(b: Buffer): seq<Semaphore> {
    (if b.prevReleaseSemaphore.Some? then [b.prevReleaseSemaphore.value] else [])
    + (if b.releaseSemaphore.Some? then [b.releaseSemaphore.value] else [])
  }

  function FreeAll(buffers: seq<Buffer>): seq<Semaphore> {
    if buffers == [] then [] else FreeAll(buffers[..|buffers| - 1]) + FreeOne(buffers[|buffers| - 1])
  }

  function Teardown(s: State): seq<Semaphore> {
    s.log.destroyed + FreeAll(s.buffers)
  }

  /** How often a buffer's teardown destroys semaphore h. */
  function Times(b: Buffer, h: Semaphore): nat {
    (if b.prevReleaseSemaphore == Some(h) then 1 else 0) + (if b.releaseSemaphore == Some(h) then 1 else 0)
  }

  /** Only the buffer a semaphore was created for ever destroys it. */
  lemma {:induction false} FreeAllTimes(s: State, h: Semaphore, k: nat)
    requires Sound(s) && h < |s.log.homes| && k <= |s.buffers|
    ensures multiset(FreeAll(s.buffers[..k]))[h] ==
            if s.log.homes[h] < k then Times(s.buffers[s.log.homes[h]], h) else 0
  {
    hide Sound, FreeOne, Times;
    if k > 0 {
      FreeAllTimes(s, h, k - 1);
      assert s.buffers[..k][..k - 1] == s.buffers[..k - 1];
      OwnTimes(s, h, k - 1);
    }
  }

  lemma OwnTimes(s: State, h: Semaphore, n: nat)
    requires Sound(s) && h < |s.log.homes| && n < |s.buffers|
    ensures multiset(FreeOne(s.buffers[n]))[h] == Times(s.buffers[n], h)
    ensures Times(s.buffers[n], h) > 0 ==> s.log.homes[h] == n && h !in s.log.destroyed
  {
    hide LogTidy, NothingLost, ListenersMatch, BufferTidy;
    assert BufferOwns(s.buffers[n], n, s.log);
  }

  lemma CountOnce(s: seq<int>, x: int)
    requires AtMostOnce(s)
    ensures multiset(s)[x] == if x in s then 1 else 0
  {
  }

  lemma TeardownTimes(s: State, h: Semaphore)
    requires Sound(s) && h < |s.log.homes|
    ensures multiset(Teardown(s))[h] ==
            if h in s.log.destroyed then 1
            else if s.log.homes[h] < |s.buffers| then Times(s.buffers[s.log.homes[h]], h) else 0
    ensures multiset(Teardown(s))[h] >= 1
  {
    hide FreeAll, FreeOne, AtMostOnce, ListenersMatch, BufferTidy, BufferOwns, Alive;
    FreeAllTimes(s, h, |s.buffers|);
    assert s.buffers[..|s.buffers|] == s.buffers;
    CountOnce(s.log.destroyed, h);
    if s.log.homes[h] < |s.buffers| { OwnTimes(s, h, s.log.homes[h]); }
  }

  lemma {:induction false} FreeAllOnlyCreated(s: State, k: nat)
    requires Sound(s) && k <= |s.buffers|
    ensures forall h :: h in FreeAll(s.buffers[..k]) ==> h < |s.log.homes|
  {
    hide LogTidy, NothingLost, ListenersMatch;
    if k > 0 {
      FreeAllOnlyCreated(s, k - 1);
      assert s.buffers[..k][..k - 1] == s.buffers[..k - 1];
      assert BufferOwns(s.buffers[k - 1], k - 1, s.log);
    }
  }

  /** After teardown no semaphore is left, and none was destroyed twice if and
      only if no idle buffer still has a release semaphore: its two fields are
      then the same handle. */
  lemma TeardownDestroysOnceIff(s: State)
    requires Sound(s)
    ensures forall h :: 0 <= h < |s.log.homes| ==> h in Teardown(s)
    ensures AtMostOnce(Teardown(s)) <==> forall n :: 0 <= n < |s.buffers| ==>
            s.buffers[n].busy || s.buffers[n].releaseSemaphore == None
  {
    hide FreeAll, LogTidy, NothingLost, ListenersMatch;
    forall h | 0 <= h < |s.log.homes| ensures h in Teardown(s) { TeardownTimes(s, h); }
    if forall n :: 0 <= n < |s.buffers| ==> s.buffers[n].busy || s.buffers[n].releaseSemaphore == None {
      forall h: int ensures multiset(Teardown(s))[h] <= 1 { IdleOnce(s, h); }
    } else {
      var n :| 0 <= n < |s.buffers| && !s.buffers[n].busy && s.buffers[n].releaseSemaphore != None;
      assert BufferTidy(s.buffers[n], s.explicitSync) && BufferOwns(s.buffers[n], n, s.log);
      TeardownTimes(s, s.buffers[n].releaseSemaphore.value);
    }
  }

  lemma IdleOnce(s: State, h: int)
    requires Sound(s)
    requires forall n :: 0 <= n < |s.buffers| ==> s.buffers[n].busy || s.buffers[n].releaseSemaphore == None
    ensures multiset(Teardown(s))[h] <= 1
  {
    hide FreeAll, NothingLost, ListenersMatch;
    if 0 <= h < |s.log.homes| {
      TeardownTimes(s, h);
      var n := s.log.homes[h];
      if n < |s.buffers| { assert BufferTidy(s.buffers[n], s.explicitSync); }
    } else {
      FreeAllOnlyCreated(s, |s.buffers|);
      assert s.buffers[..|s.buffers|] == s.buffers;
      assert h !in Teardown(s);
    }
  }

  lemma DrawFirst(s: State)
    requires Sound(s) && s.explicitSync && !s.aborted && !s.buffers[0].busy
    ensures var t := Step(s, Redraw);
            && Sound(t) && t.explicitSync && !t.aborted && t.log.fences == s.log.fences
            && t.log.frames == s.log.frames + 1
            && s.log.frames in t.log.listeners && t.log.listeners[s.log.frames] == 0
            && t.buffers[0] ==
               Buffer(true, -1, if s.buffers[0].releaseFence >= 0 then Some(|s.log.homes|) else None,
                      s.buffers[0].prevReleaseSemaphore, Some(s.log.frames))
            && |t.log.homes| == |s.log.homes| + if s.buffers[0].releaseFence >= 0 then 1 else 0
  {
    StepSound(s, Redraw);
    hide LogTidy, NothingLost, BufferOwns, ListenersMatch;
    assert BufferTidy(s.buffers[0], true);
  }

  lemma ReleaseFirst(s: State, r: Frame, fd: int)
    requires Sound(s) && s.explicitSync && !s.aborted && fd >= 0 && fd !in s.log.fences
    requires r in s.log.listeners && s.log.listeners[r] == 0
    ensures var t := Step(s, FencedRelease(r, fd));
            && Sound(t) && t.explicitSync && !t.aborted && t.log.fences == s.log.fences[fd := 0]
            && t.log.frames == s.log.frames && t.log.homes == s.log.homes
            && t.buffers[0] == Buffer(false, fd, s.buffers[0].releaseSemaphore, s.buffers[0].releaseSemaphore, None)
  {
    StepSound(s, FencedRelease(r, fd));
    hide LogTidy, NothingLost, BufferOwns;
  }

  /** Two frames on one buffer, both released with a fence, are enough. */
  lemma TeardownDestroysTwice(f: int, g: int)
    requires f >= 0 && g >= 0 && f != g
    ensures var events := [Redraw, FencedRelease(0, f), Redraw, FencedRelease(1, g)];
            AllowedRun(Initial(true), events) && !AtMostOnce(Teardown(Run(Initial(true), events)))
  {
    hide Step, LogTidy, NothingLost, BufferOwns, ListenersMatch, Teardown, AtMostOnce;
    InitialSound(true);
    var s0 := Initial(true);
    DrawFirst(s0);
    var s1 := Step(s0, Redraw);
    ReleaseFirst(s1, 0, f);
    var s2 := Step(s1, FencedRelease(0, f));
    DrawFirst(s2);
    var s3 := Step(s2, Redraw);
    ReleaseFirst(s3, 1, g);
    var s4 := Step(s3, FencedRelease(1, g));
    assert !s4.buffers[0].busy && s4.buffers[0].releaseSemaphore == Some(0);
    TeardownDestroysOnceIff(s4);
    RunOne(s3, FencedRelease(1, g), []);
    RunOne(s2, Redraw, [FencedRelease(1, g)]);
    RunOne(s1, FencedRelease(0, f), [Redraw, FencedRelease(1, g)]);
    RunOne(s0, Redraw, [FencedRelease(0, f), Redraw, FencedRelease(1, g)]);
    assert [Redraw] + [FencedRelease(0, f), Redraw, FencedRelease(1, g)]
        == [Redraw, FencedRelease(0, f), Redraw, FencedRelease(1, g)];
    assert [FencedRelease(0, f)] + [Redraw, FencedRelease(1, g)] == [FencedRelease(0, f), Redraw, FencedRelease(1, g)];
    assert [Redraw] + [FencedRelease(1, g)] == [Redraw, FencedRelease(1, g)];
    assert [FencedRelease(1, g)] + [] == [FencedRelease(1, g)];
  }

  lemma {:induction false} RunOne(s: State, ev: Event, rest: seq<Event>)
    requires Sound(s) && Allowed(s, ev) && AllowedRun(Step(s, ev), rest)
    ensures AllowedRun(s, [ev] + rest) && Run(s, [ev] + rest) == Run(Step(s, ev), rest)
  {
    assert ([ev] + rest)[1..] == rest;
  }

  // ---------- The window ----------

  lemma {:induction false} NextBufferAt(buffers: seq<Buffer>, n: nat)
    requires n <= |buffers| && (forall i :: 0 <= i < n ==> buffers[i].busy)
    requires n < |buffers| ==> !buffers[n].busy
    ensures NextBuffer(buffers) == n
  {
  }

  class Window {
    const explicitSync: bool
    const buffers: array<Buffer>
    var aborted: bool
    /** The driver's and the compositor's side, which number new handles. */
    var log: Log

    ghost function View(): State
      reads this, buffers
    {
      State(explicitSync, buffers[..], log, aborted)
    }

    ghost predicate Valid()
      reads this, buffers
    {
      Sound(View())
    }

    constructor (explicitSync: bool)
      ensures Valid() && fresh(buffers) && View() == Initial(explicitSync)
    {
      this.explicitSync := explicitSync;
      buffers := new Buffer[NUM_BUFFERS](_ => Buffer(false, -1, None, None, None));
      aborted, log := false, Log([], [], [], [], map[], 0, {}, map[]);
      new;
      InitialSound(explicitSync);
      assert View().buffers == Initial(explicitSync).buffers;
    }

    /** window_next_buffer */
    method NextIdle() returns (n: nat)
      ensures n == NextBuffer(buffers[..])
    {
      n := 0;
      while n < buffers.Length && buffers[n].busy
        invariant n <= buffers.Length && forall i :: 0 <= i < n ==> buffers[i].busy
      {
        n := n + 1;
      }
      NextBufferAt(buffers[..], n);
    }

    /** redraw: the buffer's fields change one by one, as the frame is prepared,
        submitted and committed. */
    method Redraw()
      requires Valid() && !aborted
      modifies this, buffers
      ensures Valid() && View() == Step(old(View()), Event.Redraw)
    {
      hide Sound;
      StepSound(View(), Event.Redraw);
      var n := NextIdle();
      if n == buffers.Length {
        aborted := true;
        return;
      }
      ghost var was := View();
      if buffers[n].releaseFence >= 0 {
        WaitForFence(n);
      } else {
        buffers[n] := buffers[n].(releaseSemaphore := None);
      }
      assert (buffers[n], log) == Wait(was.buffers[n], n, was.log);
      if explicitSync {
        buffers[n] := buffers[n].(bufferRelease := Some(log.frames));
        log := log.(listeners := log.listeners[log.frames := n]);
      }
      log := log.(frames := log.frames + 1);
      buffers[n] := buffers[n].(busy := true);
      assert buffers[..] == Draw(was, n).buffers;
    }

    /** wait_for_buffer_release_fence: Vulkan takes the fence. */
    method WaitForFence(n: nat)
      requires n < buffers.Length && buffers[n].releaseFence >= 0
      modifies `log, buffers
      ensures (buffers[n], log) == Wait(old(buffers[n]), n, old(log))
      ensures buffers[..] == old(buffers[..])[n := buffers[n]]
    {
      buffers[n] := buffers[n].(releaseSemaphore := Some(|log.homes|));
      log := log.(homes := log.homes + [n], waits := log.waits + [log.frames]);
      log := log.(imported := log.imported + [buffers[n].releaseFence]);
      buffers[n] := buffers[n].(releaseFence := -1);
    }

    /** The part the two release handlers share. */
    method Recycle(n: nat, release: Frame)
      requires n < buffers.Length && buffers[n].bufferRelease == Some(release)
      modifies `log, buffers
      ensures buffers[n] == Released(old(buffers[n]), old(log)).0
              && log == Drop(Released(old(buffers[n]), old(log)).1, release)
      ensures buffers[..] == old(buffers[..])[n := buffers[n]]
    {
      if buffers[n].prevReleaseSemaphore.Some? {
        log := log.(destroyed := log.destroyed + [buffers[n].prevReleaseSemaphore.value]);
        buffers[n] := buffers[n].(prevReleaseSemaphore := None);
      }
      if buffers[n].releaseSemaphore.Some? {
        buffers[n] := buffers[n].(prevReleaseSemaphore := buffers[n].releaseSemaphore);
      }
      log := Drop(log, release);
      buffers[n] := buffers[n].(busy := false, bufferRelease := None);
    }

    /** buffer_fenced_release, for the listener data n of the release object; the
        handler's own asserts are proved. */
    method FencedRelease(n: nat, release: Frame, fence: int)
      requires Valid() && Allowed(View(), Event.FencedRelease(release, fence)) && n == log.listeners[release]
      modifies this, buffers
      ensures Valid() && View() == Step(old(View()), Event.FencedRelease(release, fence))
    {
      hide Sound;
      HandlerAssertsHold(View(), release);
      StepSound(View(), Event.FencedRelease(release, fence));
      assert buffers[n].bufferRelease == Some(release);
      assert buffers[n].releaseFence == -1;
      ghost var was := View();
      Recycle(n, release);
      log := log.(fences := log.fences[fence := n]);
      buffers[n] := buffers[n].(releaseFence := fence);
      assert buffers[..] == Release(was, release, Some(fence)).buffers;
    }

    /** buffer_immediate_release */
    method ImmediateRelease(n: nat, release: Frame)
      requires Valid() && Allowed(View(), Event.ImmediateRelease(release)) && n == log.listeners[release]
      modifies this, buffers
      ensures Valid() && View() == Step(old(View()), Event.ImmediateRelease(release))
    {
      hide Sound;
      HandlerAssertsHold(View(), release);
      StepSound(View(), Event.ImmediateRelease(release));
      assert buffers[n].bufferRelease == Some(release);
      assert buffers[n].releaseFence == -1;
      Recycle(n, release);
    }

    /** buffer_release, when explicit synchronization is not used */
    method BufferRelease(n: nat)
      requires Valid() && Allowed(View(), Event.BufferRelease(n))
      modifies buffers
      ensures Valid() && View() == Step(old(View()), Event.BufferRelease(n))
    {
      hide Sound;
      StepSound(View(), Event.BufferRelease(n));
      ghost var was := View();
      buffers[n] := buffers[n].(busy := false);
      assert buffers[..] == was.buffers[n := was.buffers[n].(busy := false)];
    }
  }
}
