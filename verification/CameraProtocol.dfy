/**
 The camera callback protocol as interleaved steps.

 Any number of HAL and client threads run the wrapper operations of camera/Camera2Wrapper.cpp,
 one worker runs CallbackWorkerThread::Process, and all of them share `m_mutex`, the message
 queue and the flag `BlockCbs`.  A step is one action of one thread between two points where
 another thread can be scheduled; clocks and message contents are chosen by the step.

 The fields after `guard` are history: they record what happened and steer nothing.
 */
module CameraProtocol {
  import opened Options
  import opened CallbackWorker

  datatype Op = HalCallback | SetCallbacks | StopPreview | AutoFocus | CancelAutoFocus | Close | Open

  /** Where a HAL or client thread is in its operation. */
  datatype Pc =
    | Idle
    | Passed(work: WorkerMessage)              // the wrapper read BlockCbs and found it clear
    | WantPush(msg: ThreadMsg, op: Op)         // ThreadMsg allocated, m_mutex not yet taken
    | Pushing(msg: ThreadMsg, op: Op)          // holds m_mutex
    | WantClear(op: Op)
    | Clearing(op: Op)                         // holds m_mutex
    | Notifying(op: Op, at: nat)               // holds m_mutex, the queue is updated
    | Unlocking(op: Op, at: nat)               // holds m_mutex, the worker is notified
    | Guarding                                 // cancel_auto_focus, before its time guard
    | InVendor(op: Op)
    | Unblocking(op: Op)
    | Joining(at: nat)                         // ExitThread, inside join; its Exit is pushed[at]

  /** Where the worker is in Process. */
  datatype WorkerPc =
    | Absent                                   // m_thread == 0
    | Starting | Testing | Asleep | Woken
    | Popped(msg: ThreadMsg)                   // holds m_mutex
    | InHand(msg: ThreadMsg)
    | Calling(msg: ThreadMsg)                  // inside the user's callback
    | Finishing(msg: ThreadMsg)
    | ExitWaiting | Draining | ExitUnlocking | Exited

  datatype Owner = Nobody | Worker | Client(tid: nat)

  /** A message taken from the queue: its place in `pushed` and the message itself. */
  datatype Taken = Taken(index: int, msg: ThreadMsg)

  /** A user callback made at time `now` for taken[at] by the worker created when |taken| was `since`. */
  datatype Call = Call(at: int, since: int, invocation: Invocation, now: int)

  datatype State = State(
    threads: seq<Pc>,
    worker: WorkerPc,
    mutex: Owner,                // m_mutex
    device: Option<nat>,         // holder of gCameraWrapperLock
    queue: seq<ThreadMsg>,
    callbacks: CallbackData,     // the worker's function pointers
    blocked: bool,               // BlockCbs == 1
    guard: int,                  // CancelAFTimeGuard
    born: nat,                   // ThreadMsgs allocated
    pushed: seq<ThreadMsg>,      // every message ever enqueued, in order
    taken: seq<Taken>,           // those the worker dequeued
    dropped: set<int>,           // indices into pushed of those cleared or drained
    freed: seq<nat>,             // serials of deleted ThreadMsgs
    calls: seq<Call>,
    since: nat)                  // |taken| when the present worker was created

  /** An action of a HAL or client thread. */
  datatype Action =
    | StartOpen
    | StartClose(now: int)
    | StartCallback(work: WorkerMessage)
    | StartSetCallbacks(h: CallbackData, now: int)
    | StartStopPreview
    | StartAutoFocus
    | StartCancelAutoFocus
    | Stamp(now: int)
    | Lock
    | Push
    | Clear
    | Notify
    | Unlock
    | CheckGuard(now: int)
    | VendorReturns(now: int)
    | Unblock
    | Join

  /** An action of the worker. */
  datatype Work =
    | Locks | Tests | Releases | Dispatches(now: int) | Returns | Frees
    | LocksToExit | Drains | UnlocksToExit | WakesSpuriously

  datatype Step = ByThread(t: nat, act: Action) | ByWorker(work: Work)

  const GUARD_MS := 500

  function Init(n: nat): State {
    State(seq(n, _ => Idle), Absent, Nobody, None, [], NO_CALLBACKS, false, 0,
          0, [], [], {}, [], [], 0)
  }

  /** Index in `pushed` of the front of the queue: what lies below was taken or dropped. */
  function Head(s: State): int { |s.pushed| - |s.queue| }

  /** The integers from `lo` up to but not including `hi`. */
  function Span(lo: int, hi: int): (r: set<int>)
    ensures forall i :: i in r <==> lo <= i < hi
    decreases hi - lo
  {
    if lo >= hi then {} else {lo} + Span(lo + 1, hi)
  }

  function Serials(q: seq<ThreadMsg>): seq<nat> { seq(|q|, i requires 0 <= i < |q| => q[i].serial) }

  /** The pointers installed by a worker that has handled `ts` from the start. */
  function InstalledBy(ts: seq<Taken>): CallbackData {
    if ts == [] then NO_CALLBACKS
    else Installed(InstalledBy(ts[..|ts| - 1]), ts[|ts| - 1].msg.body)
  }

  predicate At(s: State, t: nat) { t < |s.threads| }

  predicate Possible(pc: Pc, act: Action, s: State) {
    match act
    case StartOpen => pc == Idle && s.device == None
    case StartClose(_) => pc == Idle && s.device == None
    case StartCallback(_) => pc == Idle
    case StartSetCallbacks(_, _) => pc == Idle
    case StartStopPreview => pc == Idle
    case StartAutoFocus => pc == Idle
    case StartCancelAutoFocus => pc == Idle
    case Stamp(_) => pc.Passed?
    case Lock => (pc.WantPush? || pc.WantClear?) && s.mutex == Nobody
    case Push => pc.Pushing?
    case Clear => pc.Clearing?
    case Notify => pc.Notifying?
    case Unlock => pc.Unlocking?
    case CheckGuard(_) => pc.Guarding?
    case VendorReturns(_) => pc.InVendor?
    case Unblock => pc.Unblocking?
    case Join => pc.Joining? && s.worker == Exited
  }

  predicate WorkPossible(s: State, w: Work) {
    match w
    case Locks => (s.worker == Starting || s.worker == Woken) && s.mutex == Nobody
    case Tests => s.worker == Testing
    case Releases => s.worker.Popped?
    case Dispatches(_) => s.worker.InHand?
    case Returns => s.worker.Calling?
    case Frees => s.worker.Finishing?
    case LocksToExit => s.worker == ExitWaiting && s.mutex == Nobody
    case Drains => s.worker == Draining
    case UnlocksToExit => s.worker == ExitUnlocking
    case WakesSpuriously => s.worker == Asleep
  }

  predicate Enabled(s: State, a: Step) {
    match a
    case ByThread(t, act) => At(s, t) && Possible(s.threads[t], act, s)
    case ByWorker(w) => WorkPossible(s, w)
  }

  function Goto(s: State, t: nat, pc: Pc): (r: State)
    requires At(s, t)
  {
    s.(threads := s.threads[t := pc])
  }

  function AfterLock(pc: Pc): Pc
    requires pc.WantPush? || pc.WantClear?
  {
    match pc
    case WantPush(msg, op) => Pushing(msg, op)
    case WantClear(op) => Clearing(op)
  }

  /** What follows an operation's critical section. */
  function AfterUnlock(op: Op, at: nat): Pc {
    match op
    case HalCallback => Idle
    case SetCallbacks => InVendor(SetCallbacks)
    case StopPreview => InVendor(StopPreview)
    case AutoFocus => InVendor(AutoFocus)
    case CancelAutoFocus => Guarding
    case Close => Joining(at)
    case Open => Idle
  }

  /** Everything still queued is popped and deleted. */
  function DropAll(s: State): State {
    s.(queue := [],
       dropped := s.dropped + Span(Head(s), |s.pushed|),
       freed := s.freed + Serials(s.queue))
  }

  function Do(s: State, t: nat, act: Action): State
    requires At(s, t) && Possible(s.threads[t], act, s)
  {
    match act
    case StartOpen =>
      var s1 := Goto(s, t, Unblocking(Open)).(device := Some(t));
      if s.worker == Absent then s1.(worker := Starting, callbacks := NO_CALLBACKS, since := |s.taken|) else s1
    case StartClose(now) =>
      if s.worker == Absent then s
      else Goto(s, t, WantPush(ThreadMsg(s.born, Exit, now), Close)).(device := Some(t), born := s.born + 1)
    case StartCallback(work) =>
      if s.blocked then s else Goto(s, t, Passed(work))
    case StartSetCallbacks(h, now) =>
      Goto(s, t, WantPush(ThreadMsg(s.born, Update(h), now), SetCallbacks)).(born := s.born + 1)
    case StartStopPreview => Goto(s, t, WantClear(StopPreview)).(blocked := true)
    case StartAutoFocus => Goto(s, t, WantClear(AutoFocus))
    case StartCancelAutoFocus => Goto(s, t, WantClear(CancelAutoFocus)).(blocked := true)
    case Stamp(now) =>
      Goto(s, t, WantPush(ThreadMsg(s.born, Execute(s.threads[t].work), now), HalCallback)).(born := s.born + 1)
    case Lock =>
      Goto(s, t, AfterLock(s.threads[t])).(mutex := Client(t))
    case Push =>
      var msg := s.threads[t].msg;
      Goto(s, t, Notifying(s.threads[t].op, |s.pushed|)).(queue := s.queue + [msg], pushed := s.pushed + [msg])
    case Clear => DropAll(Goto(s, t, Notifying(s.threads[t].op, |s.pushed|)))
    case Notify =>
      var s1 := Goto(s, t, Unlocking(s.threads[t].op, s.threads[t].at));
      if s.worker == Asleep then s1.(worker := Woken) else s1
    case Unlock => Goto(s, t, AfterUnlock(s.threads[t].op, s.threads[t].at)).(mutex := Nobody)
    case CheckGuard(now) =>
      Goto(s, t, if s.guard - now > 0 then Idle else InVendor(CancelAutoFocus))
    case VendorReturns(now) =>
      var op := s.threads[t].op;
      if op == StopPreview || op == CancelAutoFocus then Goto(s, t, Unblocking(op))
      else if op == AutoFocus then Goto(s, t, Idle).(guard := now + GUARD_MS)
      else Goto(s, t, Idle)
    case Unblock =>
      Goto(s, t, Idle).(blocked := false, device := if s.threads[t].op == Open then None else s.device)
    case Join => Goto(s, t, Idle).(worker := Absent, device := None)
  }

  function Advance(s: State, w: Work): State
    requires WorkPossible(s, w)
  {
    match w
    case Locks => s.(worker := Testing, mutex := Worker)
    case Tests =>
      if s.queue == [] then s.(worker := Asleep, mutex := Nobody)
      else s.(worker := Popped(s.queue[0]), queue := s.queue[1..],
              taken := s.taken + [Taken(Head(s), s.queue[0])])
    case Releases => s.(worker := InHand(s.worker.msg), mutex := Nobody)
    case Dispatches(now) =>
      var msg := s.worker.msg;
      (match msg.body
       case Execute(work) =>
         var fn := Chosen(s.callbacks, work, now - msg.callerTS);
         if fn.Some?
         then s.(worker := Calling(msg),
                 calls := s.calls + [Call(|s.taken| - 1, s.since, Invocation(fn.value, work), now)])
         else s.(worker := Finishing(msg))
       case Update(h) => s.(worker := Finishing(msg), callbacks := h)
       case Exit => s.(worker := ExitWaiting, freed := s.freed + [msg.serial]))
    case Returns => s.(worker := Finishing(s.worker.msg))
    case Frees => s.(worker := Starting, freed := s.freed + [s.worker.msg.serial])
    case LocksToExit => s.(worker := Draining, mutex := Worker)
    case Drains => DropAll(s).(worker := ExitUnlocking)
    case UnlocksToExit => s.(worker := Exited, mutex := Nobody)
    case WakesSpuriously => s.(worker := Woken)
  }

  function Apply(s: State, a: Step): State
    requires Enabled(s, a)
  {
    match a
    case ByThread(t, act) => Do(s, t, act)
    case ByWorker(w) => Advance(s, w)
  }

  /** `run` can be taken from `s`, each step enabled where it is taken. */
  predicate Runnable(s: State, run: seq<Step>)
    decreases |run|
  {
    run == [] || (Enabled(s, run[0]) && Runnable(Apply(s, run[0]), run[1..]))
  }

  function Run(s: State, run: seq<Step>): State
    requires Runnable(s, run)
    decreases |run|
  {
    if run == [] then s else Run(Apply(s, run[0]), run[1..])
  }

  // -------------------------------------------------------------------------------------
  // Invariants.

  predicate Holds(pc: Pc) { pc.Pushing? || pc.Clearing? || pc.Notifying? || pc.Unlocking? }

  predicate WorkerHolds(w: WorkerPc) { w.Testing? || w.Popped? || w.Draining? || w.ExitUnlocking? }

  /** m_mutex is held exactly by the thread that is inside a critical section. */
  ghost predicate LockInv(s: State) {
    && (s.mutex == Worker <==> WorkerHolds(s.worker))
    && (s.mutex.Client? ==> At(s, s.mutex.tid))
    && (forall t :: 0 <= t < |s.threads| ==> (Holds(s.threads[t]) <==> s.mutex == Client(t)))
  }

  /** Some thread is about to notify the worker. */
  predicate NotifyPending(s: State) {
    s.mutex.Client? && At(s, s.mutex.tid) && s.threads[s.mutex.tid].Notifying?
  }

  predicate WakeInv(s: State) { s.worker == Asleep && s.queue != [] ==> NotifyPending(s) }

  /** The worker's message that is not deleted yet. */
  function Hand(w: WorkerPc): Option<ThreadMsg> {
    if w.Popped? || w.InHand? || w.Calling? || w.Finishing? then Some(w.msg) else None
  }

  predicate Undispatched(w: WorkerPc) { w.Popped? || w.InHand? }

  function Last(s: State): Taken
    requires s.taken != []
  {
    s.taken[|s.taken| - 1]
  }

  ghost predicate Increasing(ts: seq<Taken>) {
    forall i, j :: 0 <= i < j < |ts| ==> ts[i].index < ts[j].index
  }

  ghost predicate WasTaken(ts: seq<Taken>, i: int) { exists p :: 0 <= p < |ts| && ts[p].index == i }

  /** The queue is the tail of what was pushed; everything before it was either taken, in order, or dropped. */
  ghost predicate HistoryInv(s: State) {
    && |s.queue| <= |s.pushed|
    && s.queue == s.pushed[Head(s)..]
    && Increasing(s.taken)
    && (forall p :: 0 <= p < |s.taken| ==> 0 <= s.taken[p].index < Head(s) && s.taken[p].msg == s.pushed[s.taken[p].index])
    && (forall i :: i in s.dropped ==> i < Head(s) && !WasTaken(s.taken, i))
    && (forall i :: 0 <= i < Head(s) && i !in s.dropped ==> WasTaken(s.taken, i))
    && s.since <= |s.taken|
    && (Hand(s.worker).Some? ==> s.since < |s.taken| && Last(s).msg == Hand(s.worker).value)
  }

  /** A recorded call was made for an Execute message, fresh, with the pointers then installed. */
  predicate Justified(ts: seq<Taken>, c: Call) {
    && 0 <= c.since <= c.at < |ts|
    && ts[c.at].msg.body == Execute(c.invocation.work)
    && Chosen(InstalledBy(ts[c.since..c.at]), c.invocation.work, c.now - ts[c.at].msg.callerTS) == Some(c.invocation.fn)
  }

  /** Messages whose handling has begun. */
  function Dispatched(s: State): int { if Undispatched(s.worker) then |s.taken| - 1 else |s.taken| }

  ghost predicate CallInv(s: State) {
    && s.since <= Dispatched(s) <= |s.taken|
    && s.callbacks == InstalledBy(s.taken[s.since..Dispatched(s)])
    && (forall k :: 0 <= k < |s.calls| ==> Justified(s.taken, s.calls[k]) && s.calls[k].at < Dispatched(s))
    && (forall j, k :: 0 <= j < k < |s.calls| ==> s.calls[j].at < s.calls[k].at)
    && (s.worker.Calling? ==> s.calls != [] && s.calls[|s.calls| - 1].at == |s.taken| - 1)
  }

  /** The ThreadMsg a producer has allocated and not yet enqueued. */
  function Carried(pc: Pc): Option<ThreadMsg> {
    if pc.WantPush? || pc.Pushing? then Some(pc.msg) else None
  }

  predicate Carries(threads: seq<Pc>, t: int, serial: nat) {
    0 <= t < |threads| && Carried(threads[t]).Some? && Carried(threads[t]).value.serial == serial
  }

  predicate Enqueued(pushed: seq<ThreadMsg>, i: int, serial: nat) { 0 <= i < |pushed| && pushed[i].serial == serial }

  ghost predicate IsOwned(threads: seq<Pc>, pushed: seq<ThreadMsg>, x: nat) {
    (exists t :: Carries(threads, t, x)) || (exists i :: Enqueued(pushed, i, x))
  }

  /** Index in `pushed` of the message in the worker's hand; -1 if its hand is empty. */
  function HandIndex(s: State): int { if Hand(s.worker).Some? && s.taken != [] then Last(s).index else -1 }

  ghost predicate DistinctSerials(pushed: seq<ThreadMsg>) {
    forall i, j :: 0 <= i < j < |pushed| ==> pushed[i].serial != pushed[j].serial
  }

  /** Each of the `born` messages is carried by one producer or was enqueued once. */
  ghost predicate OwnerInv(threads: seq<Pc>, pushed: seq<ThreadMsg>, born: nat) {
    && DistinctSerials(pushed)
    && (forall i :: 0 <= i < |pushed| ==> pushed[i].serial < born)
    && (forall t :: 0 <= t < |threads| && Carried(threads[t]).Some? ==> Carried(threads[t]).value.serial < born)
    && (forall t, i :: 0 <= t < |threads| && Carried(threads[t]).Some? && 0 <= i < |pushed| ==>
          Carried(threads[t]).value.serial != pushed[i].serial)
    && (forall t, u :: 0 <= t < u < |threads| && Carried(threads[t]).Some? && Carried(threads[u]).Some? ==>
          Carried(threads[t]).value.serial != Carried(threads[u]).value.serial)
    && (forall x: nat :: x < born ==> IsOwned(threads, pushed, x))
  }

  ghost predicate FreedFrom(pushed: seq<ThreadMsg>, head: int, x: nat) {
    exists i :: Enqueued(pushed, i, x) && i < head
  }

  /** Of the messages below `head`, exactly those other than pushed[hand] are deleted, each once. */
  ghost predicate FreeInv(pushed: seq<ThreadMsg>, head: int, freed: seq<nat>, hand: int) {
    && 0 <= head <= |pushed| && hand < head
    && (forall j, k :: 0 <= j < k < |freed| ==> freed[j] != freed[k])
    && (forall i :: 0 <= i < head ==> (pushed[i].serial in freed <==> i != hand))
    && (forall x :: x in freed ==> FreedFrom(pushed, head, x))
  }

  predicate ExitPhase(w: WorkerPc) { w.ExitWaiting? || w.Draining? || w.ExitUnlocking? || w.Exited? }

  /** The worker handles nothing after an Exit. */
  ghost predicate ExitInv(s: State) {
    && s.since <= |s.taken|
    && (forall p :: s.since <= p < |s.taken| - 1 ==> !s.taken[p].msg.body.Exit?)
    && (ExitPhase(s.worker) ==> s.since < |s.taken| && Last(s).msg.body.Exit?)
    && (s.since < |s.taken| && Last(s).msg.body.Exit? ==>
          Undispatched(s.worker) || ExitPhase(s.worker) || s.worker == Absent)
    && (s.worker.ExitUnlocking? ==> s.queue == [])
  }

  /** The pairing of operations with the places they can be at. */
  predicate Sensible(pc: Pc) {
    match pc
    case WantPush(msg, op) => PushedBy(msg, op)
    case Pushing(msg, op) => PushedBy(msg, op)
    case WantClear(op) => op.StopPreview? || op.AutoFocus? || op.CancelAutoFocus?
    case Clearing(op) => op.StopPreview? || op.AutoFocus? || op.CancelAutoFocus?
    case Notifying(op, _) => !op.Open?
    case Unlocking(op, _) => !op.Open?
    case InVendor(op) => op.SetCallbacks? || op.StopPreview? || op.AutoFocus? || op.CancelAutoFocus?
    case Unblocking(op) => op.StopPreview? || op.CancelAutoFocus? || op.Open?
    case _ => true
  }

  predicate PushedBy(msg: ThreadMsg, op: Op) {
    match msg.body
    case Execute(_) => op.HalCallback?
    case Update(_) => op.SetCallbacks?
    case Exit => op.Close?
  }

  /** Inside camera2_device_open or camera2_device_close. */
  predicate UsesDevice(pc: Pc) {
    || ((pc.WantPush? || pc.Pushing? || pc.Notifying? || pc.Unlocking?) && pc.op.Close?)
    || (pc.Unblocking? && pc.op.Open?)
    || pc.Joining?
  }

  /** The index of the Exit a closing thread has enqueued. */
  function ExitOf(pc: Pc): Option<nat> {
    if pc.Joining? then Some(pc.at)
    else if (pc.Notifying? || pc.Unlocking?) && pc.op.Close? then Some(pc.at)
    else None
  }

  /** gCameraWrapperLock is held exactly by the thread that opens or closes the device. */
  ghost predicate DeviceInv(s: State) {
    && (forall t :: 0 <= t < |s.threads| ==> Sensible(s.threads[t]))
    && (forall t :: 0 <= t < |s.threads| ==> (UsesDevice(s.threads[t]) <==> s.device == Some(t)))
    && (s.device.Some? ==> At(s, s.device.value) && s.worker != Absent)
  }

  /** Index of the Exit that the thread using the device has enqueued; -1 if there is none. */
  function Closing(s: State): int {
    if s.device.Some? && At(s, s.device.value) && ExitOf(s.threads[s.device.value]).Some?
    then ExitOf(s.threads[s.device.value]).value else -1
  }

  /** The only Exit queued, or taken by the present worker, is the one of the closing thread. */
  ghost predicate ClosingInv(pushed: seq<ThreadMsg>, head: int, taken: seq<Taken>, since: int, gone: bool, closing: int) {
    && (forall i :: 0 <= i < |pushed| && head <= i && pushed[i].body.Exit? ==> i == closing)
    && (forall p :: 0 <= p < |taken| && since <= p && taken[p].msg.body.Exit? && !gone ==> taken[p].index == closing)
    && (closing != -1 ==> 0 <= closing < |pushed| && pushed[closing].body.Exit?)
    && (forall p :: 0 <= p < |taken| && p < since ==> taken[p].index != closing)
  }

  ghost predicate Inv(s: State) {
    LockInv(s) && WakeInv(s) && HistoryInv(s) && CallInv(s) && OwnerInv(s.threads, s.pushed, s.born) &&
    FreeInv(s.pushed, Head(s), s.freed, HandIndex(s)) && ExitInv(s) && DeviceInv(s) &&
    ClosingInv(s.pushed, Head(s), s.taken, s.since, s.worker == Absent, Closing(s))
  }

  // -------------------------------------------------------------------------------------
  // Every step keeps every invariant.

  lemma InitInv(n: nat)
    ensures Inv(Init(n))
  {
    var s := Init(n);
    assert Head(s) == 0 && Closing(s) == HandIndex(s) == -1;
    assert LockInv(s) && WakeInv(s) && HistoryInv(s) && CallInv(s);
    assert OwnerInv(s.threads, s.pushed, s.born) && FreeInv(s.pushed, 0, s.freed, -1);
    assert ExitInv(s) && DeviceInv(s);
  }

  /** A thread takes and releases the mutex for itself only. */
  lemma DoMutex(s: State, t: nat, act: Action)
    requires Enabled(s, ByThread(t, act)) && (Holds(s.threads[t]) <==> s.mutex == Client(t))
    ensures var s' := Do(s, t, act);
      && s'.threads == s.threads[t := s'.threads[t]]
      && (Holds(s'.threads[t]) <==> s'.mutex == Client(t))
      && (s'.mutex == s.mutex || (s.mutex == Nobody && s'.mutex == Client(t)) || (s.mutex == Client(t) && s'.mutex == Nobody))
  {
    hide Span, Serials, Head;
  }

  /** The worker is woken between the change of the queue and the release. */
  lemma DoWake(s: State, t: nat, act: Action)
    requires Enabled(s, ByThread(t, act)) && (Holds(s.threads[t]) <==> s.mutex == Client(t))
    requires s.worker == Asleep && s.queue != [] ==> NotifyPending(s)
    ensures var s' := Do(s, t, act);
      && WorkerHolds(s'.worker) == WorkerHolds(s.worker)
      && (s'.worker == Asleep && s'.queue != [] ==> NotifyPending(s'))
  {
    hide Span, Serials, Head;
  }

  lemma LockDo(s: State, t: nat, act: Action)
    requires Enabled(s, ByThread(t, act)) && LockInv(s) && WakeInv(s)
    ensures LockInv(Do(s, t, act)) && WakeInv(Do(s, t, act))
  {
    hide Do;
    DoMutex(s, t, act);
    DoWake(s, t, act);
  }

  lemma LockAdvance(s: State, w: Work)
    requires WorkPossible(s, w) && LockInv(s) && WakeInv(s)
    ensures LockInv(Advance(s, w)) && WakeInv(Advance(s, w))
  {
  }

  /** Only Push and Clear touch the queue; no thread touches what the worker recorded. */
  lemma DoFrame(s: State, t: nat, act: Action)
    requires Enabled(s, ByThread(t, act))
    ensures var s' := Do(s, t, act);
      && s'.taken == s.taken && s'.calls == s.calls
      && (s'.worker == s.worker || (s.worker == Asleep && s'.worker == Woken) ||
          (act.StartOpen? && s.worker == Absent && s'.worker == Starting) ||
          (act.Join? && s.worker == Exited && s'.worker == Absent))
      && (act.StartOpen? && s.worker == Absent ==> s'.since == |s.taken| && s'.callbacks == NO_CALLBACKS)
      && (!(act.StartOpen? && s.worker == Absent) ==> s'.since == s.since && s'.callbacks == s.callbacks)
      && (if act.Push? then
            s'.queue == s.queue + [s.threads[t].msg] && s'.pushed == s.pushed + [s.threads[t].msg] &&
            s'.dropped == s.dropped && s'.freed == s.freed
          else if act.Clear? then
            s'.queue == [] && s'.pushed == s.pushed &&
            s'.dropped == DropAll(s).dropped && s'.freed == DropAll(s).freed
          else
            s'.queue == s.queue && s'.pushed == s.pushed && s'.dropped == s.dropped && s'.freed == s.freed)
  {
  }

  /** Only Tests and Drains touch the queue; Dispatches, Frees and Drains delete messages. */
  lemma AdvanceFrame(s: State, w: Work)
    requires WorkPossible(s, w)
    ensures var s' := Advance(s, w);
      && s'.pushed == s.pushed && s'.since == s.since && s'.threads == s.threads && s'.device == s.device && s'.born == s.born
      && s'.worker != Absent && s.worker != Absent
      && (if w.Tests? && s.queue != [] then
            s'.taken == s.taken + [Taken(Head(s), s.queue[0])] && s'.queue == s.queue[1..] && s'.dropped == s.dropped
          else if w.Drains? then
            s'.taken == s.taken && s'.queue == [] && s'.dropped == DropAll(s).dropped
          else
            s'.taken == s.taken && s'.queue == s.queue && s'.dropped == s.dropped)
      && (!w.Tests? && Hand(s'.worker).Some? ==> Hand(s'.worker) == Hand(s.worker))
      && (!w.Dispatches? ==> s'.calls == s.calls && s'.callbacks == s.callbacks)
      && (!w.Dispatches? && !w.Tests? ==> Undispatched(s'.worker) == Undispatched(s.worker))
      && (!w.Dispatches? && !w.Frees? && !w.Drains? ==> s'.freed == s.freed)
      && (s'.worker.Calling? ==> w.Dispatches?)
      && Dispatched(s') == (if w.Dispatches? then |s.taken| else Dispatched(s))
      && s.calls <= s'.calls && (forall k :: |s.calls| <= k < |s'.calls| ==> s'.calls[k].at == |s.taken| - 1)
  {
  }

  lemma HistorySame(s: State, s': State)
    requires HistoryInv(s)
    requires s'.queue == s.queue && s'.pushed == s.pushed && s'.taken == s.taken && s'.dropped == s.dropped
    requires s'.since <= |s'.taken|
    requires Hand(s'.worker).Some? ==> Hand(s'.worker) == Hand(s.worker) && s'.since == s.since
    ensures HistoryInv(s')
  {
  }

  lemma HistoryPush(s: State, t: nat)
    requires Enabled(s, ByThread(t, Push)) && HistoryInv(s)
    ensures HistoryInv(Do(s, t, Push))
  {
  }

  lemma HistoryDrop(s: State)
    requires HistoryInv(s)
    ensures HistoryInv(DropAll(s))
  {
  }

  lemma TakenMore(ts: seq<Taken>, x: Taken, i: int)
    ensures WasTaken(ts + [x], i) <==> WasTaken(ts, i) || i == x.index
  {
    var ts' := ts + [x];
    if WasTaken(ts, i) {
      var p :| 0 <= p < |ts| && ts[p].index == i;
      assert ts'[p].index == i;
    }
    if i == x.index { assert ts'[|ts|].index == i; }
  }

  /** The front of the queue moves to the record of what was taken. */
  lemma HistoryTakeFront(s: State, s': State)
    requires HistoryInv(s) && s.queue != []
    requires s'.queue == s.queue[1..] && s'.pushed == s.pushed && s'.dropped == s.dropped && s'.since == s.since
    requires s'.taken == s.taken + [Taken(Head(s), s.queue[0])]
    requires Hand(s'.worker).Some? ==> Hand(s'.worker) == Some(s.queue[0])
    ensures HistoryInv(s')
  {
    hide WasTaken;
    assert s.queue[0] == s.pushed[Head(s)];
    forall i
      ensures WasTaken(s'.taken, i) <==> WasTaken(s.taken, i) || i == Head(s)
    {
      TakenMore(s.taken, Taken(Head(s), s.queue[0]), i);
    }
  }

  lemma HistoryTake(s: State)
    requires s.worker == Testing && HistoryInv(s)
    ensures HistoryInv(Advance(s, Tests))
  {
    AdvanceFrame(s, Tests);
    hide HistoryInv;
    var s' := Advance(s, Tests);
    if s.queue != [] { HistoryTakeFront(s, s'); } else { HistorySame(s, s'); }
  }

  lemma HistoryDo(s: State, t: nat, act: Action)
    requires Enabled(s, ByThread(t, act)) && DeviceInv(s) && HistoryInv(s)
    ensures HistoryInv(Do(s, t, act))
  {
    hide Do;
    DoFrame(s, t, act);
    match act
    case Push => HistoryPush(s, t);
    case Clear => HistoryDrop(s); HistorySame(DropAll(s), Do(s, t, act));
    case _ => HistorySame(s, Do(s, t, act));
  }

  lemma HistoryAdvance(s: State, w: Work)
    requires WorkPossible(s, w) && HistoryInv(s)
    ensures HistoryInv(Advance(s, w))
  {
    hide Advance;
    AdvanceFrame(s, w);
    match w
    case Tests => HistoryTake(s);
    case Drains => HistoryDrop(s); HistorySame(DropAll(s), Advance(s, w));
    case _ => HistorySame(s, Advance(s, w));
  }

  lemma CallDo(s: State, t: nat, act: Action)
    requires Enabled(s, ByThread(t, act)) && CallInv(s) && DeviceInv(s)
    ensures CallInv(Do(s, t, act))
  {
    hide Do;
    DoFrame(s, t, act);
    var s' := Do(s, t, act);
    if act.StartOpen? && s.worker == Absent {
      assert s'.taken[s'.since..Dispatched(s')] == [];
    }
  }

  /** Earlier calls stay justified however the record of taken messages grows. */
  lemma StillJustified(ts: seq<Taken>, ts': seq<Taken>, c: Call)
    requires Justified(ts, c) && ts <= ts'
    ensures Justified(ts', c)
  {
    assert ts'[c.since..c.at] == ts[c.since..c.at];
  }

  lemma CallTake(s: State)
    requires s.worker == Testing && CallInv(s)
    ensures CallInv(Advance(s, Tests))
  {
    var s' := Advance(s, Tests);
    var n := |s.taken|;
    if s.queue != [] {
      assert Dispatched(s') == n == Dispatched(s);
      assert s'.taken[s.since..n] == s.taken[s.since..n];
    }
    forall k | 0 <= k < |s'.calls|
      ensures Justified(s'.taken, s'.calls[k])
    {
      StillJustified(s.taken, s'.taken, s.calls[k]);
    }
  }

  lemma InstalledNext(ts: seq<Taken>, since: int, n: int)
    requires 0 <= since <= n < |ts|
    ensures InstalledBy(ts[since..n + 1]) == Installed(InstalledBy(ts[since..n]), ts[n].msg.body)
  {
    var after := ts[since..n + 1];
    assert after[..|after| - 1] == ts[since..n] && after[|after| - 1] == ts[n];
  }

  /** Handling the message in hand installs its pointers or records one justified call. */
  lemma DispatchEffect(s: State, now: int)
    requires s.worker.InHand? && s.taken != [] && Last(s).msg == s.worker.msg && 0 <= s.since < |s.taken|
    requires s.callbacks == InstalledBy(s.taken[s.since..|s.taken| - 1])
    ensures var s' := Advance(s, Dispatches(now));
      && s'.callbacks == InstalledBy(s.taken[s.since..|s.taken|])
      && (s'.calls == s.calls || (|s'.calls| == |s.calls| + 1 && s'.calls[..|s.calls|] == s.calls &&
            s'.calls[|s.calls|].at == |s.taken| - 1 && Justified(s.taken, s'.calls[|s.calls|])))
      && (s'.worker.Calling? ==> |s'.calls| == |s.calls| + 1)
      && !Undispatched(s'.worker) && s'.taken == s.taken && s'.since == s.since
  {
    InstalledNext(s.taken, s.since, |s.taken| - 1);
  }

  lemma CallDispatch(s: State, s': State)
    requires Undispatched(s.worker) && CallInv(s)
    requires s'.callbacks == InstalledBy(s.taken[s.since..|s.taken|])
    requires s'.calls == s.calls || (|s'.calls| == |s.calls| + 1 && s'.calls[..|s.calls|] == s.calls &&
            s'.calls[|s.calls|].at == |s.taken| - 1 && Justified(s.taken, s'.calls[|s.calls|]))
    requires s'.worker.Calling? ==> |s'.calls| == |s.calls| + 1
    requires !Undispatched(s'.worker) && s'.taken == s.taken && s'.since == s.since
    ensures CallInv(s')
  {
    hide Justified, InstalledBy;
    assert forall k :: 0 <= k < |s.calls| ==> s'.calls[k] == s.calls[k];
  }

  lemma CallAdvance(s: State, w: Work)
    requires WorkPossible(s, w) && HistoryInv(s) && CallInv(s)
    ensures CallInv(Advance(s, w))
  {
    AdvanceFrame(s, w);
    match w
    case Tests => CallTake(s);
    case Dispatches(now) => DispatchEffect(s, now); CallDispatch(s, Advance(s, w));
    case _ =>
  }

  /** How one action changes what its thread carries. */
  lemma DoCarried(s: State, t: nat, act: Action)
    requires Enabled(s, ByThread(t, act))
    ensures var s' := Do(s, t, act);
      && s'.threads == s.threads[t := s'.threads[t]]
      && if act.Push? then
           && Carried(s.threads[t]).Some? && Carried(s'.threads[t]) == None
           && s'.pushed == s.pushed + [Carried(s.threads[t]).value] && s'.born == s.born
         else if s'.born == s.born then
           s'.pushed == s.pushed && Carried(s'.threads[t]) == Carried(s.threads[t])
         else
           && s'.pushed == s.pushed && s'.born == s.born + 1 && Carried(s.threads[t]) == None
           && Carried(s'.threads[t]).Some? && Carried(s'.threads[t]).value.serial == s.born
  {
  }

  lemma OwnerKeep(threads: seq<Pc>, t: nat, pc: Pc, pushed: seq<ThreadMsg>, born: nat)
    requires t < |threads| && OwnerInv(threads, pushed, born)
    requires Carried(pc) == Carried(threads[t])
    ensures OwnerInv(threads[t := pc], pushed, born)
  {
    var threads' := threads[t := pc];
    forall x: nat | x < born
      ensures IsOwned(threads', pushed, x)
    {
      assert IsOwned(threads, pushed, x);
      if u :| Carries(threads, u, x) { assert Carries(threads', u, x); }
    }
  }

  lemma OwnerAllocate(threads: seq<Pc>, t: nat, pc: Pc, pushed: seq<ThreadMsg>, born: nat)
    requires t < |threads| && OwnerInv(threads, pushed, born)
    requires Carried(threads[t]) == None && Carried(pc).Some? && Carried(pc).value.serial == born
    ensures OwnerInv(threads[t := pc], pushed, born + 1)
  {
    var threads' := threads[t := pc];
    forall x: nat | x < born + 1
      ensures IsOwned(threads', pushed, x)
    {
      if x == born {
        assert Carries(threads', t, x);
      } else {
        assert IsOwned(threads, pushed, x);
        if u :| Carries(threads, u, x) { assert Carries(threads', u, x); }
      }
    }
  }

  lemma OwnerPush(threads: seq<Pc>, t: nat, pc: Pc, pushed: seq<ThreadMsg>, born: nat)
    requires t < |threads| && OwnerInv(threads, pushed, born)
    requires Carried(threads[t]).Some? && Carried(pc) == None
    ensures OwnerInv(threads[t := pc], pushed + [Carried(threads[t]).value], born)
  {
    var threads' := threads[t := pc];
    var pushed' := pushed + [Carried(threads[t]).value];
    forall x: nat | x < born
      ensures IsOwned(threads', pushed', x)
    {
      assert IsOwned(threads, pushed, x);
      if i :| Enqueued(pushed, i, x) {
        assert Enqueued(pushed', i, x);
      } else {
        var u :| Carries(threads, u, x);
        if u == t { assert Enqueued(pushed', |pushed|, x); } else { assert Carries(threads', u, x); }
      }
    }
  }

  lemma OwnerDo(s: State, t: nat, act: Action)
    requires Enabled(s, ByThread(t, act)) && OwnerInv(s.threads, s.pushed, s.born)
    ensures var s' := Do(s, t, act); OwnerInv(s'.threads, s'.pushed, s'.born)
  {
    hide Do;
    DoCarried(s, t, act);
    var pc := Do(s, t, act).threads[t];
    if act.Push? {
      OwnerPush(s.threads, t, pc, s.pushed, s.born);
    } else if Do(s, t, act).born == s.born {
      OwnerKeep(s.threads, t, pc, s.pushed, s.born);
    } else {
      OwnerAllocate(s.threads, t, pc, s.pushed, s.born);
    }
  }

  lemma FreePush(pushed: seq<ThreadMsg>, head: int, freed: seq<nat>, hand: int, msg: ThreadMsg)
    requires FreeInv(pushed, head, freed, hand)
    ensures FreeInv(pushed + [msg], head, freed, hand)
  {
    forall x | x in freed
      ensures FreedFrom(pushed + [msg], head, x)
    {
      assert FreedFrom(pushed, head, x);
      var i :| Enqueued(pushed, i, x) && i < head;
      assert Enqueued(pushed + [msg], i, x);
    }
  }

  lemma FreeTake(pushed: seq<ThreadMsg>, head: int, freed: seq<nat>)
    requires FreeInv(pushed, head, freed, -1) && head < |pushed| && DistinctSerials(pushed)
    ensures FreeInv(pushed, head + 1, freed, head)
  {
    forall x | x in freed
      ensures FreedFrom(pushed, head + 1, x) && x != pushed[head].serial
    {
      assert FreedFrom(pushed, head, x);
    }
  }

  lemma FreeHand(pushed: seq<ThreadMsg>, head: int, freed: seq<nat>, hand: int)
    requires FreeInv(pushed, head, freed, hand) && 0 <= hand && DistinctSerials(pushed)
    ensures FreeInv(pushed, head, freed + [pushed[hand].serial], -1)
  {
    assert Enqueued(pushed, hand, pushed[hand].serial);
    forall x | x in freed + [pushed[hand].serial]
      ensures FreedFrom(pushed, head, x)
    {
      assert x in freed || x == pushed[hand].serial;
    }
  }

  lemma FreeDrop(pushed: seq<ThreadMsg>, head: int, freed: seq<nat>, hand: int)
    requires FreeInv(pushed, head, freed, hand) && DistinctSerials(pushed)
    ensures FreeInv(pushed, |pushed|, freed + Serials(pushed[head..]), hand)
  {
    var more := Serials(pushed[head..]);
    assert forall k :: 0 <= k < |more| ==> more[k] == pushed[head + k].serial;
    forall x | x in freed
      ensures FreedFrom(pushed, |pushed|, x) && x !in more
    {
      assert FreedFrom(pushed, head, x);
    }
    forall i | 0 <= i < |pushed|
      ensures pushed[i].serial in freed + more <==> i != hand
    {
      if head <= i { assert more[i - head] == pushed[i].serial; }
    }
    forall x | x in more
      ensures FreedFrom(pushed, |pushed|, x)
    {
      var k :| 0 <= k < |more| && more[k] == x;
      assert Enqueued(pushed, head + k, x);
    }
  }

  lemma FreeDo(s: State, t: nat, act: Action)
    requires Enabled(s, ByThread(t, act)) && HistoryInv(s) && OwnerInv(s.threads, s.pushed, s.born)
    requires FreeInv(s.pushed, Head(s), s.freed, HandIndex(s))
    ensures var s' := Do(s, t, act); FreeInv(s'.pushed, Head(s'), s'.freed, HandIndex(s'))
  {
    hide Do;
    DoFrame(s, t, act);
    if act.Push? {
      FreePush(s.pushed, Head(s), s.freed, HandIndex(s), s.threads[t].msg);
    } else if act.Clear? {
      FreeDrop(s.pushed, Head(s), s.freed, HandIndex(s));
    }
  }

  lemma AdvanceHandTests(s: State)
    requires s.worker == Testing && s.queue != [] && HistoryInv(s)
    ensures var s' := Advance(s, Tests);
      s'.pushed == s.pushed && HandIndex(s) == -1 && HandIndex(s') == Head(s) && Head(s') == Head(s) + 1 && s'.freed == s.freed
  {
  }

  lemma AdvanceHandRest(s: State, w: Work)
    requires WorkPossible(s, w) && HistoryInv(s) && !(w.Tests? && s.queue != [])
    ensures var s' := Advance(s, w);
      && s'.pushed == s.pushed
      && if w.Drains? then
           HandIndex(s') == HandIndex(s) && Head(s') == |s.pushed| && s'.freed == s.freed + Serials(s.pushed[Head(s)..])
         else if w.Frees? || (w.Dispatches? && s.worker.msg.body.Exit?) then
           && 0 <= HandIndex(s) < |s.pushed| && s'.freed == s.freed + [s.pushed[HandIndex(s)].serial]
           && HandIndex(s') == -1 && Head(s') == Head(s)
         else
           HandIndex(s') == HandIndex(s) && Head(s') == Head(s) && s'.freed == s.freed
  {
    hide Span, Serials, Increasing, WasTaken;
  }

  /** How one action of the worker moves messages between queue, hand and heap. */
  lemma AdvanceHand(s: State, w: Work)
    requires WorkPossible(s, w) && HistoryInv(s)
    ensures var s' := Advance(s, w);
      && s'.pushed == s.pushed
      && if w.Tests? && s.queue != [] then
           HandIndex(s) == -1 && HandIndex(s') == Head(s) && Head(s') == Head(s) + 1 && s'.freed == s.freed
         else if w.Drains? then
           HandIndex(s') == HandIndex(s) && Head(s') == |s.pushed| && s'.freed == s.freed + Serials(s.pushed[Head(s)..])
         else if w.Frees? || (w.Dispatches? && s.worker.msg.body.Exit?) then
           && 0 <= HandIndex(s) < |s.pushed| && s'.freed == s.freed + [s.pushed[HandIndex(s)].serial]
           && HandIndex(s') == -1 && Head(s') == Head(s)
         else
           HandIndex(s') == HandIndex(s) && Head(s') == Head(s) && s'.freed == s.freed
  {
    hide Advance;
    if w.Tests? && s.queue != [] { AdvanceHandTests(s); } else { AdvanceHandRest(s, w); }
  }

  lemma FreeAdvance(s: State, s': State, w: Work)
    requires WorkPossible(s, w) && HistoryInv(s) && DistinctSerials(s.pushed) && s' == Advance(s, w)
    requires FreeInv(s.pushed, Head(s), s.freed, HandIndex(s))
    ensures FreeInv(s'.pushed, Head(s'), s'.freed, HandIndex(s'))
  {
    hide Advance;
    AdvanceHand(s, w);
    if w.Tests? && s.queue != [] {
      FreeTake(s.pushed, Head(s), s.freed);
    } else if w.Drains? {
      FreeDrop(s.pushed, Head(s), s.freed, HandIndex(s));
    } else if w.Frees? || (w.Dispatches? && s.worker.msg.body.Exit?) {
      FreeHand(s.pushed, Head(s), s.freed, HandIndex(s));
    }
  }

  lemma ExitDo(s: State, t: nat, act: Action)
    requires Enabled(s, ByThread(t, act)) && LockInv(s) && HistoryInv(s) && ExitInv(s) && DeviceInv(s)
    ensures ExitInv(Do(s, t, act))
  {
    hide Do;
    DoFrame(s, t, act);
  }

  lemma ExitAdvance(s: State, w: Work)
    requires WorkPossible(s, w) && HistoryInv(s) && ExitInv(s)
    ensures ExitInv(Advance(s, w))
  {
    AdvanceFrame(s, w);
  }

  /** A thread moves only between places that belong to its operation. */
  lemma DoSensible(s: State, t: nat, act: Action)
    requires Enabled(s, ByThread(t, act)) && Sensible(s.threads[t])
    ensures var s' := Do(s, t, act); s'.threads == s.threads[t := s'.threads[t]] && Sensible(s'.threads[t])
  {
    hide Span, Serials, Head;
  }

  /** The actions of a critical section. */
  predicate InSection(act: Action) { act.Lock? || act.Push? || act.Clear? || act.Notify? || act.Unlock? }

  lemma DoDeviceInSection(s: State, t: nat, act: Action)
    requires Enabled(s, ByThread(t, act)) && Sensible(s.threads[t])
    requires UsesDevice(s.threads[t]) <==> s.device == Some(t)
    requires InSection(act)
    ensures var s' := Do(s, t, act);
      && s'.threads == s.threads[t := s'.threads[t]]
      && (UsesDevice(s'.threads[t]) <==> s'.device == Some(t))
      && (s'.device == s.device || (s.device == None && s'.device == Some(t)) || (s.device == Some(t) && s'.device == None))
  {
    hide Span, Serials, Head;
  }

  lemma DoDeviceOutside(s: State, t: nat, act: Action)
    requires Enabled(s, ByThread(t, act)) && Sensible(s.threads[t])
    requires UsesDevice(s.threads[t]) <==> s.device == Some(t)
    requires !InSection(act)
    ensures var s' := Do(s, t, act);
      && s'.threads == s.threads[t := s'.threads[t]]
      && (UsesDevice(s'.threads[t]) <==> s'.device == Some(t))
      && (s'.device == s.device || (s.device == None && s'.device == Some(t)) || (s.device == Some(t) && s'.device == None))
  {
    hide Span, Serials, Head;
  }

  /** Only the thread itself takes or gives up the device. */
  lemma DoDevice(s: State, t: nat, act: Action)
    requires Enabled(s, ByThread(t, act)) && Sensible(s.threads[t])
    requires UsesDevice(s.threads[t]) <==> s.device == Some(t)
    ensures var s' := Do(s, t, act);
      && s'.threads == s.threads[t := s'.threads[t]]
      && (UsesDevice(s'.threads[t]) <==> s'.device == Some(t))
      && (s'.device == s.device || (s.device == None && s'.device == Some(t)) || (s.device == Some(t) && s'.device == None))
  {
    hide Do;
    if InSection(act) { DoDeviceInSection(s, t, act); } else { DoDeviceOutside(s, t, act); }
  }

  /** The device is used only while there is a worker. */
  lemma DoDeviceWorker(s: State, t: nat, act: Action)
    requires Enabled(s, ByThread(t, act)) && Sensible(s.threads[t])
    requires UsesDevice(s.threads[t]) <==> s.device == Some(t)
    requires s.device.Some? ==> s.worker != Absent
    ensures var s' := Do(s, t, act); s'.device.Some? ==> s'.worker != Absent
  {
    hide Span, Serials, Head;
  }

  lemma DeviceDo(s: State, t: nat, act: Action)
    requires Enabled(s, ByThread(t, act)) && DeviceInv(s)
    ensures DeviceInv(Do(s, t, act))
  {
    hide Do;
    DoSensible(s, t, act);
    DoDevice(s, t, act);
    DoDeviceWorker(s, t, act);
  }

  lemma DeviceAdvance(s: State, w: Work)
    requires WorkPossible(s, w) && DeviceInv(s)
    ensures DeviceInv(Advance(s, w))
  {
  }

  lemma DoClosingInSection(s: State, t: nat, act: Action)
    requires Enabled(s, ByThread(t, act)) && DeviceInv(s)
    requires InSection(act)
    ensures var s' := Do(s, t, act);
      && (act.Push? && s.threads[t].msg.body.Exit? ==> Closing(s) == -1 && Closing(s') == |s.pushed|)
      && (!(act.Push? && s.threads[t].msg.body.Exit?) ==> Closing(s') == Closing(s))
      && (s'.worker == Absent <==> s.worker == Absent)
  {
    hide Span, Serials, Head;
  }

  lemma DoClosingOutside(s: State, t: nat, act: Action)
    requires Enabled(s, ByThread(t, act)) && DeviceInv(s)
    requires !InSection(act)
    ensures var s' := Do(s, t, act);
      && (act.Join? ==> Closing(s') == -1 && s'.worker == Absent && Closing(s) == s.threads[t].at)
      && (act.StartOpen? ==> Closing(s) == Closing(s') == -1)
      && (!act.Join? ==> Closing(s') == Closing(s))
      && (!act.Join? && !act.StartOpen? ==> (s'.worker == Absent <==> s.worker == Absent))
  {
    hide Span, Serials, Head;
  }

  /** An action changes the pending Exit only by pushing it or by joining. */
  lemma DoClosing(s: State, t: nat, act: Action)
    requires Enabled(s, ByThread(t, act)) && DeviceInv(s)
    ensures var s' := Do(s, t, act);
      && (act.Push? && s.threads[t].msg.body.Exit? ==> Closing(s) == -1 && Closing(s') == |s.pushed|)
      && (act.Join? ==> Closing(s') == -1 && s'.worker == Absent && Closing(s) == s.threads[t].at)
      && (act.StartOpen? ==> Closing(s) == Closing(s') == -1)
      && (!(act.Push? && s.threads[t].msg.body.Exit?) && !act.Join? ==> Closing(s') == Closing(s))
      && (!act.Join? && !act.StartOpen? ==> (s'.worker == Absent <==> s.worker == Absent))
  {
    hide Do;
    if InSection(act) { DoClosingInSection(s, t, act); } else { DoClosingOutside(s, t, act); }
  }

  lemma ClosingDo(s: State, t: nat, act: Action)
    requires Enabled(s, ByThread(t, act)) && HistoryInv(s) && ExitInv(s) && DeviceInv(s)
    requires ClosingInv(s.pushed, Head(s), s.taken, s.since, s.worker == Absent, Closing(s))
    ensures var s' := Do(s, t, act); ClosingInv(s'.pushed, Head(s'), s'.taken, s'.since, s'.worker == Absent, Closing(s'))
  {
    hide Do;
    DoFrame(s, t, act);
    DoClosing(s, t, act);
  }

  lemma ClosingAdvance(s: State, w: Work)
    requires WorkPossible(s, w) && HistoryInv(s)
    requires ClosingInv(s.pushed, Head(s), s.taken, s.since, s.worker == Absent, Closing(s))
    ensures var s' := Advance(s, w); ClosingInv(s'.pushed, Head(s'), s'.taken, s'.since, s'.worker == Absent, Closing(s'))
  {
    hide Advance;
    AdvanceFrame(s, w);
  }

  /** The main invariant: whatever thread moves, everything above still holds. */
  lemma StepInv(s: State, a: Step)
    requires Inv(s) && Enabled(s, a)
    ensures Inv(Apply(s, a))
  {
    hide Do, Advance;
    match a
    case ByThread(t, act) =>
      LockDo(s, t, act); HistoryDo(s, t, act); CallDo(s, t, act); OwnerDo(s, t, act);
      FreeDo(s, t, act); ExitDo(s, t, act); DeviceDo(s, t, act); ClosingDo(s, t, act);
    case ByWorker(w) =>
      LockAdvance(s, w); HistoryAdvance(s, w); CallAdvance(s, w); AdvanceFrame(s, w);
      FreeAdvance(s, Advance(s, w), w); ExitAdvance(s, w); DeviceAdvance(s, w); ClosingAdvance(s, w);
  }

  lemma {:induction false} RunInv(s: State, run: seq<Step>)
    requires Inv(s) && Runnable(s, run)
    ensures Inv(Run(s, run))
    decreases |run|
  {
    if run != [] {
      StepInv(s, run[0]);
      RunInv(Apply(s, run[0]), run[1..]);
    }
  }
}
