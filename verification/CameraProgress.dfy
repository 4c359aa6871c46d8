/**
 Progress of the camera callback protocol: the mutex is never held for long, the worker is never
 left asleep with work to do, and an enqueue or a clear can always complete.
 */
module CameraProgress {
  import opened CameraProtocol
  import opened CameraTheorems

  // -------------------------------------------------------------------------------------
  // The mutex.

  /** The stated purpose of the worker: user code never runs under m_mutex, and no wake-up is lost. */
  lemma CallbackRunsUnlocked(s: State)
    requires Reachable(s)
    ensures s.worker.Calling? ==> s.mutex != Worker
    ensures s.worker == Asleep && s.queue != [] ==> NotifyPending(s)
    ensures s.worker == Asleep && s.mutex == Nobody ==> s.queue == []
  {
    ReachableInv(s);
  }

  /** The only step that the holder of the mutex can take next. */
  function HolderStep(s: State): Step
    requires LockInv(s) && s.mutex != Nobody
  {
    if s.mutex == Worker then
      ByWorker(if s.worker.Testing? then Tests else if s.worker.Popped? then Releases
               else if s.worker.Draining? then Drains else UnlocksToExit)
    else
      var pc := s.threads[s.mutex.tid];
      ByThread(s.mutex.tid, if pc.Pushing? then Push else if pc.Clearing? then Clear
                            else if pc.Notifying? then Notify else Unlock)
  }

  /** Steps the holder still takes inside its critical section. */
  function HoldRank(s: State): nat
    requires LockInv(s)
  {
    match s.mutex
    case Nobody => 0
    case Worker => if s.worker.Testing? || s.worker.Draining? then 2 else 1
    case Client(t) => if s.threads[t].Pushing? || s.threads[t].Clearing? then 3 else if s.threads[t].Notifying? then 2 else 1
  }

  /** The holder's next step is always possible and brings it closer to releasing the mutex. */
  lemma HolderAdvances(s: State)
    requires LockInv(s) && WakeInv(s) && s.mutex != Nobody
    ensures Enabled(s, HolderStep(s))
    ensures var s' := Apply(s, HolderStep(s));
      && LockInv(s') && WakeInv(s') && HoldRank(s') < HoldRank(s) <= 3
      && (s'.mutex == Nobody || s'.mutex == s.mutex)
      && (forall t :: 0 <= t < |s.threads| && s.mutex != Client(t) ==> t < |s'.threads| && s'.threads[t] == s.threads[t])
  {
    match HolderStep(s)
    case ByThread(t, act) => LockDo(s, t, act);
    case ByWorker(w) => LockAdvance(s, w);
  }

  /** No step of anybody else delays the holder. */
  lemma OthersDoNotDelayHolder(s: State, a: Step)
    requires LockInv(s) && WakeInv(s) && s.mutex != Nobody && Enabled(s, a) && a != HolderStep(s)
    ensures LockInv(Apply(s, a)) && Apply(s, a).mutex == s.mutex && HoldRank(Apply(s, a)) == HoldRank(s)
  {
    hide Do;
    match a
    case ByThread(t, act) => LockDo(s, t, act); DoMutex(s, t, act); DoWake(s, t, act); DoFrame(s, t, act);
    case ByWorker(w) => LockAdvance(s, w);
  }

  lemma {:induction false} RunConcat(s: State, a: seq<Step>, b: seq<Step>)
    requires Runnable(s, a) && Runnable(Run(s, a), b)
    ensures Runnable(s, a + b) && Run(s, a + b) == Run(Run(s, a), b)
    decreases |a|
  {
    hide Apply, Enabled;
    if a == [] {
      assert a + b == b;
    } else {
      RunConcat(Apply(s, a[0]), a[1..], b);
      assert (a + b)[0] == a[0] && (a + b)[1..] == a[1..] + b;
    }
  }

  /** The holder alone, in at most three steps, frees the mutex; a waiting thread is not disturbed. */
  lemma {:induction false} MutexComesFree(s: State, t: nat) returns (run: seq<Step>)
    requires LockInv(s) && WakeInv(s) && At(s, t) && s.mutex != Client(t)
    ensures Runnable(s, run) && |run| <= HoldRank(s) <= 3
    ensures var s' := Run(s, run);
      LockInv(s') && WakeInv(s') && s'.mutex == Nobody && At(s', t) && s'.threads[t] == s.threads[t]
    ensures forall a :: a in run ==> a != ByWorker(Returns)
    decreases HoldRank(s)
  {
    if s.mutex == Nobody {
      run := [];
    } else {
      HolderAdvances(s);
      var a := HolderStep(s);
      var rest := MutexComesFree(Apply(s, a), t);
      run := [a] + rest;
      assert run[1..] == rest;
    }
  }

  lemma RunCons(s: State, a: Step, rest: seq<Step>)
    requires Enabled(s, a) && Runnable(Apply(s, a), rest)
    ensures Runnable(s, [a] + rest) && Run(s, [a] + rest) == Run(Apply(s, a), rest)
  {
    assert ([a] + rest)[1..] == rest;
  }

  /** Lock, update the queue, notify, unlock, with nobody in the way. */
  function Section(s: State, t: nat): seq<Step>
    requires At(s, t)
  {
    [ByThread(t, Lock), ByThread(t, if s.threads[t].WantPush? then Push else Clear), ByThread(t, Notify), ByThread(t, Unlock)]
  }

  predicate SectionDone(pc: Pc, t: nat, s': State)
    requires pc.WantPush? || pc.WantClear?
  {
    && s'.mutex == Nobody && At(s', t)
    && (pc.WantPush? ==>
          |s'.pushed| > 0 && s'.queue != [] && s'.pushed[|s'.pushed| - 1] == pc.msg && s'.threads[t] == AfterUnlock(pc.op, |s'.pushed| - 1))
    && (pc.WantClear? ==> s'.queue == [] && s'.threads[t] == AfterUnlock(pc.op, |s'.pushed|))
  }

  /** Both kinds of critical section end by notifying the worker and unlocking. */
  lemma SectionEnds(s: State, t: nat)
    requires At(s, t) && s.threads[t].Notifying?
    ensures var run := [ByThread(t, Notify), ByThread(t, Unlock)];
      && Runnable(s, run)
      && var s' := Run(s, run);
         && s'.mutex == Nobody && At(s', t) && s'.threads[t] == AfterUnlock(s.threads[t].op, s.threads[t].at)
         && s'.threads == s.threads[t := s'.threads[t]]
         && s'.pushed == s.pushed && s'.queue == s.queue && s'.dropped == s.dropped
         && s'.blocked == s.blocked && s'.guard == s.guard
         && s'.device == s.device && (s'.worker == Absent <==> s.worker == Absent)
  {
    var s1 := Apply(s, ByThread(t, Notify));
    RunCons(s1, ByThread(t, Unlock), []);
    assert [ByThread(t, Unlock)] + [] == [ByThread(t, Unlock)];
    RunCons(s, ByThread(t, Notify), [ByThread(t, Unlock)]);
    assert [ByThread(t, Notify)] + [ByThread(t, Unlock)] == [ByThread(t, Notify), ByThread(t, Unlock)];
  }

  /** They begin by locking and updating the queue. */
  lemma SectionBegins(s: State, t: nat)
    requires At(s, t) && s.mutex == Nobody && (s.threads[t].WantPush? || s.threads[t].WantClear?)
    ensures var sec := Section(s, t);
      && Enabled(s, sec[0]) && Enabled(Apply(s, sec[0]), sec[1])
      && var s2 := Apply(Apply(s, sec[0]), sec[1]);
         && At(s2, t) && s2.blocked == s.blocked && s2.guard == s.guard && s2.device == s.device && s2.worker == s.worker
         && s2.threads[t] == Notifying(s.threads[t].op, |s.pushed|)
         && s2.threads == s.threads[t := s2.threads[t]]
         && (s.threads[t].WantPush? ==>
               s2.pushed == s.pushed + [s.threads[t].msg] && s2.queue == s.queue + [s.threads[t].msg])
         && (s.threads[t].WantClear? ==>
               s2.pushed == s.pushed && s2.queue == [] && s2.dropped == s.dropped + Span(Head(s), |s.pushed|))
  {
  }

  lemma SectionRuns(s: State, t: nat)
    requires At(s, t) && s.mutex == Nobody && (s.threads[t].WantPush? || s.threads[t].WantClear?)
    ensures Runnable(s, Section(s, t)) && SectionDone(s.threads[t], t, Run(s, Section(s, t)))
    ensures Run(s, Section(s, t)).blocked == s.blocked && Run(s, Section(s, t)).guard == s.guard
    ensures Run(s, Section(s, t)).device == s.device && (Run(s, Section(s, t)).worker == Absent <==> s.worker == Absent)
    ensures Run(s, Section(s, t)).threads == s.threads[t := Run(s, Section(s, t)).threads[t]]
    ensures s.threads[t].WantClear? ==> Run(s, Section(s, t)).dropped == s.dropped + Span(Head(s), |s.pushed|)
  {
    var sec := Section(s, t);
    SectionBegins(s, t);
    var s1 := Apply(s, sec[0]);
    var s2 := Apply(s1, sec[1]);
    SectionEnds(s2, t);
    var rest := [sec[2], sec[3]];
    RunCons(s1, sec[1], rest);
    RunCons(s, sec[0], [sec[1]] + rest);
    assert [sec[0]] + ([sec[1]] + rest) == sec;
  }

  /**
   A thread that wants to enqueue or clear can always finish its critical section, whatever the
   state: at most seven steps do it, none of which is the return of a user callback.
   */
  lemma CriticalSectionCompletes(s: State, t: nat) returns (run: seq<Step>)
    requires Reachable(s) && At(s, t) && (s.threads[t].WantPush? || s.threads[t].WantClear?)
    ensures Runnable(s, run) && |run| <= 7 && forall a :: a in run ==> a != ByWorker(Returns)
    ensures SectionDone(s.threads[t], t, Run(s, run))
  {
    ReachableInv(s);
    var free := MutexComesFree(s, t);
    var s0 := Run(s, free);
    SectionRuns(s0, t);
    RunConcat(s, free, Section(s0, t));
    run := free + Section(s0, t);
  }

  // -------------------------------------------------------------------------------------
  // The time guard of cancel_auto_focus.

  /** What follows the critical section of cancel_auto_focus. */
  function GuardedTail(guard: int, t: nat, now: int): seq<Step> {
    [ByThread(t, CheckGuard(now))] +
    if guard - now > 0 then [] else [ByThread(t, VendorReturns(now)), ByThread(t, Unblock)]
  }

  lemma GuardedTailRuns(s: State, t: nat, now: int)
    requires At(s, t) && s.threads[t] == Guarding && s.blocked
    ensures Runnable(s, GuardedTail(s.guard, t, now))
    ensures var s' := Run(s, GuardedTail(s.guard, t, now));
      At(s', t) && s'.threads[t] == Idle && s'.queue == s.queue && s'.mutex == s.mutex && (s'.blocked <==> now < s.guard)
  {
    var check, returns_, unblock := ByThread(t, CheckGuard(now)), ByThread(t, VendorReturns(now)), ByThread(t, Unblock);
    var s1 := Apply(s, check);
    if s.guard - now > 0 {
      RunCons(s, check, []);
    } else {
      var s2 := Apply(s1, returns_);
      RunCons(s2, unblock, []);
      assert [unblock] + [] == [unblock];
      RunCons(s1, returns_, [unblock]);
      assert [returns_] + [unblock] == [returns_, unblock];
      RunCons(s, check, [returns_, unblock]);
    }
  }

  /** camera2_cancel_auto_focus run by thread t with nobody in between. */
  function CancelRun(s: State, t: nat, now: int): seq<Step>
    requires At(s, t) && s.threads[t] == Idle
  {
    var start := ByThread(t, StartCancelAutoFocus);
    [start] + (Section(Apply(s, start), t) + GuardedTail(s.guard, t, now))
  }

  /** cancel_auto_focus returns with BlockCbs still raised exactly when its time guard is active. */
  lemma CancelLeavesBlockedIffGuarded(s: State, t: nat, now: int)
    requires At(s, t) && s.threads[t] == Idle && s.mutex == Nobody
    ensures Runnable(s, CancelRun(s, t, now))
    ensures var s' := Run(s, CancelRun(s, t, now));
      At(s', t) && s'.threads[t] == Idle && s'.queue == [] && (s'.blocked <==> now < s.guard)
  {
    var start := ByThread(t, StartCancelAutoFocus);
    var s1 := Apply(s, start);
    SectionRuns(s1, t);
    var s2 := Run(s1, Section(s1, t));
    GuardedTailRuns(s2, t, now);
    RunConcat(s1, Section(s1, t), GuardedTail(s.guard, t, now));
    RunCons(s, start, Section(s1, t) + GuardedTail(s.guard, t, now));
  }

  /** camera2_auto_focus run by thread t with nobody in between, the vendor call returning at `now`. */
  function FocusRun(s: State, t: nat, now: int): seq<Step>
    requires At(s, t) && s.threads[t] == Idle
  {
    var start := ByThread(t, StartAutoFocus);
    [start] + (Section(Apply(s, start), t) + [ByThread(t, VendorReturns(now))])
  }

  lemma FocusArmsGuard(s: State, t: nat, now: int)
    requires At(s, t) && s.threads[t] == Idle && s.mutex == Nobody
    ensures Runnable(s, FocusRun(s, t, now))
    ensures var s' := Run(s, FocusRun(s, t, now));
      At(s', t) && s'.threads[t] == Idle && s'.mutex == Nobody && s'.guard == now + GUARD_MS && s'.blocked == s.blocked &&
      s'.threads == s.threads && s'.device == s.device && (s'.worker == Absent <==> s.worker == Absent)
  {
    var start, back := ByThread(t, StartAutoFocus), ByThread(t, VendorReturns(now));
    var s1 := Apply(s, start);
    SectionRuns(s1, t);
    var s2 := Run(s1, Section(s1, t));
    RunCons(s2, back, []);
    assert [back] + [] == [back];
    RunConcat(s1, Section(s1, t), [back]);
    RunCons(s, start, Section(s1, t) + [back]);
  }

  /** Cancelling within half a second of focusing leaves callbacks blocked after both calls returned. */
  lemma CancelAfterFocus(s: State, t: nat, focused: int, cancelled: int)
    requires At(s, t) && s.threads[t] == Idle && s.mutex == Nobody
    ensures Runnable(s, FocusRun(s, t, focused))
    ensures var s1 := Run(s, FocusRun(s, t, focused));
      && At(s1, t) && s1.threads[t] == Idle && Runnable(s1, CancelRun(s1, t, cancelled))
      && (Run(s1, CancelRun(s1, t, cancelled)).blocked <==> cancelled - focused < 500)
  {
    FocusArmsGuard(s, t, focused);
    CancelLeavesBlockedIffGuarded(Run(s, FocusRun(s, t, focused)), t, cancelled);
  }
}
