/**
 Closing the device: the pending Exit ends the worker and the close returns, exactly unless a Clear
 drops the Exit.
 */
module CameraClosing {
  import opened Options
  import opened CameraProtocol
  import opened CameraTheorems
  import opened CameraProgress

  // -------------------------------------------------------------------------------------
  // Closing the device.

  /** Steps the worker needs to be done with its present message. */
  function WorkRank(w: WorkerPc): nat {
    match w
    case Absent => 0
    case Starting => 1
    case Testing => 0
    case Asleep => 2
    case Woken => 1
    case Popped(_) => 5
    case InHand(_) => 4
    case Calling(_) => 3
    case Finishing(_) => 2
    case ExitWaiting => 3
    case Draining => 2
    case ExitUnlocking => 1
    case Exited => 0
  }

  /** Bound on the worker's own steps until it has returned because of the Exit at pushed[e]. */
  function ExitRank(s: State, e: nat): int {
    if Head(s) <= e then 7 * (e - Head(s) + 1) + WorkRank(s.worker) else WorkRank(s.worker)
  }

  /** The Exit at pushed[e] is queued, or it is the message the worker took last and acts on. */
  predicate Ending(s: State, e: nat) {
    && s.worker != Absent && Closing(s) == e
    && (Head(s) <= e || (s.since < |s.taken| && Last(s).index == e))
  }

  /** Neither a Clear nor the join that follows the worker's return. */
  predicate Quiet(a: Step) { !(a.ByThread? && (a.act.Clear? || a.act.Join?)) }

  predicate AllQuiet(run: seq<Step>) { forall i :: 0 <= i < |run| ==> Quiet(run[i]) }

  function WorkerSteps(run: seq<Step>): nat
    decreases |run|
  {
    if run == [] then 0 else (if run[0].ByWorker? then 1 else 0) + WorkerSteps(run[1..])
  }

  lemma RankByThread(s: State, t: nat, act: Action)
    requires Enabled(s, ByThread(t, act)) && s.worker != Absent && !act.Clear? && !act.Join?
    ensures var s' := Do(s, t, act);
      && s'.worker != Absent && WorkRank(s'.worker) <= WorkRank(s.worker) && s'.since == s.since && s'.taken == s.taken
      && |s'.pushed| - |s'.queue| == Head(s)
  {
    hide Do;
    DoFrame(s, t, act);
  }

  lemma EndingByThread(s: State, t: nat, act: Action, e: nat)
    requires Inv(s) && Ending(s, e) && Enabled(s, ByThread(t, act)) && !act.Clear? && !act.Join?
    ensures Ending(Do(s, t, act), e) && ExitRank(Do(s, t, act), e) <= ExitRank(s, e)
  {
    hide Do;
    RankByThread(s, t, act);
    assert DeviceInv(s);
    DoClosing(s, t, act);
  }

  lemma RankByWorker(s: State, w: Work)
    requires WorkPossible(s, w) && |s.queue| <= |s.pushed|
    ensures RankMoves(s, Advance(s, w), w)
  {
  }

  /** How the worker's action w moves the parts that the rank is made of. */
  predicate RankMoves(s: State, s': State, w: Work) {
    && s'.worker != Absent && s'.since == s.since && Closing(s') == Closing(s)
    && if w.Tests? && s.queue != [] then
         s.worker.Testing? && s'.worker.Popped? && Head(s') == Head(s) + 1 &&
         |s'.taken| == |s.taken| + 1 && Last(s').index == Head(s)
       else if w.Drains? then
         s.worker.Draining? && s'.taken == s.taken && s'.worker == ExitUnlocking && Head(s') == |s.pushed|
       else
         s'.taken == s.taken && Head(s') == Head(s) &&
         (if w.Tests? then s.worker.Testing? else WorkRank(s'.worker) < WorkRank(s.worker))
  }

  /** Once the Exit is taken the worker only acts on it; before that it takes what lies ahead. */
  lemma EndingWorker(s: State, e: nat)
    requires HistoryInv(s) && ExitInv(s) && Ending(s, e)
    requires ClosingInv(s.pushed, Head(s), s.taken, s.since, s.worker == Absent, Closing(s))
    ensures if Head(s) <= e then !ExitPhase(s.worker) && s.queue != []
            else Undispatched(s.worker) || ExitPhase(s.worker)
  {
    assert ExitPhase(s.worker) ==> s.taken[|s.taken| - 1].index == Closing(s);
  }

  lemma EndingByWorker(s: State, w: Work, e: nat)
    requires Inv(s) && Ending(s, e) && WorkPossible(s, w)
    ensures Ending(Advance(s, w), e) && ExitRank(Advance(s, w), e) < ExitRank(s, e)
  {
    hide Advance, Ending, ExitRank, RankMoves;
    assert |s.queue| <= |s.pushed| && s.since <= |s.taken|;
    RankByWorker(s, w);
    EndingWorker(s, e);
    EndingMoves(s, Advance(s, w), w, e);
  }

  lemma EndingMoves(s: State, s': State, w: Work, e: nat)
    requires Ending(s, e) && RankMoves(s, s', w) && s.since <= |s.taken|
    requires if Head(s) <= e then !ExitPhase(s.worker) && s.queue != [] else Undispatched(s.worker) || ExitPhase(s.worker)
    ensures Ending(s', e) && ExitRank(s', e) < ExitRank(s, e)
  {
    hide Closing;
  }

  lemma EndingStep(s: State, a: Step, e: nat)
    requires Inv(s) && Ending(s, e) && Enabled(s, a) && Quiet(a)
    ensures Ending(Apply(s, a), e)
    ensures ExitRank(Apply(s, a), e) + (if a.ByWorker? then 1 else 0) <= ExitRank(s, e)
    ensures forall i :: i <= e && i in Apply(s, a).dropped ==> i in s.dropped
  {
    hide Do, Advance;
    match a
    case ByThread(t, act) => DoFrame(s, t, act); EndingByThread(s, t, act, e);
    case ByWorker(w) => AdvanceFrame(s, w); EndingWorker(s, e); EndingByWorker(s, w, e);
  }

  /** The rank pays for every step of the worker. */
  lemma {:induction false} EndingRun(s: State, run: seq<Step>, e: nat)
    requires Inv(s) && Ending(s, e) && Runnable(s, run) && AllQuiet(run)
    ensures Inv(Run(s, run)) && Ending(Run(s, run), e)
    ensures WorkerSteps(run) + ExitRank(Run(s, run), e) <= ExitRank(s, e)
    ensures forall i :: i <= e && i in Run(s, run).dropped ==> i in s.dropped
    decreases |run|
  {
    hide Do, Advance;
    if run != [] {
      assert Quiet(run[0]);
      StepInv(s, run[0]);
      EndingStep(s, run[0], e);
      assert forall i :: 0 <= i < |run[1..]| ==> run[1..][i] == run[i + 1];
      EndingRun(Apply(s, run[0]), run[1..], e);
    }
  }

  /** The messages taken since s are exactly those that were ahead of the Exit, and the Exit. */
  ghost predicate TookExactlyUpTo(s: State, s': State, e: nat) {
    && s.taken <= s'.taken
    && (forall p :: |s.taken| <= p < |s'.taken| ==> Head(s) <= s'.taken[p].index <= e)
    && (forall i :: Head(s) <= i <= e ==> WasTaken(s'.taken, i))
  }

  lemma TookOnly(s: State, s': State, e: nat)
    requires HistoryInv(s) && HistoryInv(s') && ExitInv(s') && Later(s, s') && Ending(s', e) && ExitPhase(s'.worker)
    requires ClosingInv(s'.pushed, Head(s'), s'.taken, s'.since, s'.worker == Absent, Closing(s'))
    requires forall i :: i <= e && i in s'.dropped ==> i in s.dropped
    ensures TookExactlyUpTo(s, s', e)
  {
    EndingWorker(s', e);
    var n := |s'.taken| - 1;
    assert forall p :: 0 <= p < n ==> s'.taken[p].index < s'.taken[n].index;
    assert forall i :: Head(s) <= i <= e ==> i !in s'.dropped;
  }

  lemma ExitPending(s: State, e: nat)
    requires Inv(s) && Head(s) <= e < |s.pushed| && s.pushed[e].body.Exit? && s.worker != Absent
    ensures Ending(s, e)
  {
    assert ClosingInv(s.pushed, Head(s), s.taken, s.since, s.worker == Absent, Closing(s));
  }

  lemma RankZero(s: State, e: nat)
    requires Inv(s) && Ending(s, e)
    ensures 0 <= ExitRank(s, e)
    ensures ExitRank(s, e) == 0 ==> s.worker == Exited
  {
    EndingWorker(s, e);
  }

  /**
   Once an Exit is queued and nobody clears the queue, the worker returns within ExitRank of its
   own steps.
   */
  lemma ExitStopsWorker(s: State, run: seq<Step>, e: nat)
    requires Reachable(s) && Head(s) <= e < |s.pushed| && s.pushed[e].body.Exit? && s.worker != Absent
    requires Runnable(s, run) && AllQuiet(run)
    ensures WorkerSteps(run) <= ExitRank(s, e)
    ensures WorkerSteps(run) == ExitRank(s, e) ==> Run(s, run).worker == Exited
  {
    ReachableInv(s);
    ExitPending(s, e);
    EndingRun(s, run, e);
    RankZero(Run(s, run), e);
  }

  /** It takes every message ahead of the Exit and none behind it, and returns with the queue empty. */
  lemma ExitTakesOnlyWhatIsAhead(s: State, run: seq<Step>, e: nat)
    requires Reachable(s) && Head(s) <= e < |s.pushed| && s.pushed[e].body.Exit? && s.worker != Absent
    requires Runnable(s, run) && AllQuiet(run) && ExitPhase(Run(s, run).worker)
    ensures TookExactlyUpTo(s, Run(s, run), e)
    ensures Run(s, run).worker == ExitUnlocking ==> Run(s, run).queue == []
  {
    ReachableInv(s);
    ExitPending(s, e);
    EndingRun(s, run, e);
    LaterRun(s, run);
    TookOnly(s, Run(s, run), e);
  }

  /** A worker that is neither gone nor asleep over an empty queue can move, or the mutex holder can. */
  lemma SomebodyMoves(s: State)
    requires LockInv(s) && WakeInv(s) && s.worker != Absent && s.worker != Exited
    requires s.worker == Asleep ==> s.queue != []
    ensures (s.mutex.Client? && Enabled(s, HolderStep(s))) || exists w: Work :: !w.WakesSpuriously? && WorkPossible(s, w)
  {
    if !s.mutex.Client? {
      var w := if s.worker.Starting? || s.worker.Woken? then Locks else if s.worker.Testing? then Tests
               else if s.worker.Popped? then Releases else if s.worker.InHand? then Dispatches(0)
               else if s.worker.Calling? then Returns else if s.worker.Finishing? then Frees
               else if s.worker.ExitWaiting? then LocksToExit else if s.worker.Draining? then Drains
               else UnlocksToExit;
      assert WorkPossible(s, w);
    }
  }

  /** A thread holds the mutex to clear the queue, and the Exit at pushed[e] is still queued. */
  predicate Doomed(s: State, e: nat) {
    s.mutex.Client? && At(s, s.mutex.tid) && s.threads[s.mutex.tid].Clearing? && Head(s) <= e
  }

  /** Step `a` leads on towards the worker's return: a finite measure falls and the Exit is not lost. */
  ghost predicate Closer(s: State, a: Step, e: nat)
    requires LockInv(s)
  {
    && Enabled(s, a) && a != ByWorker(WakesSpuriously)
    && var s' := Apply(s, a);
       && Inv(s') && Ending(s', e) && !Doomed(s', e)
       && (ExitRank(s', e) < ExitRank(s, e) || (ExitRank(s', e) == ExitRank(s, e) && HoldRank(s') < HoldRank(s)))
  }

  /** The worker that has taken the Exit is not asleep. */
  lemma ActsOnExit(s: State, e: nat)
    requires Inv(s) && Ending(s, e) && e < Head(s)
    ensures DeviceInv(s) && s.worker != Asleep
  {
    EndingWorker(s, e);
  }

  /** A Clear behind the Exit leaves the ending as it is. */
  lemma EndingClear(s: State, t: nat, e: nat)
    requires Inv(s) && Ending(s, e) && Enabled(s, ByThread(t, Clear)) && e < Head(s)
    ensures var s' := Do(s, t, Clear); Ending(s', e) && ExitRank(s', e) == ExitRank(s, e)
  {
    hide Do, Inv, Closing, DeviceInv, DropAll;
    ActsOnExit(s, e);
    DoFrame(s, t, Clear);
    DoClosing(s, t, Clear);
  }

  lemma HolderCloser(s: State, e: nat)
    requires Inv(s) && Ending(s, e) && !Doomed(s, e) && s.mutex.Client?
    ensures Closer(s, HolderStep(s), e)
  {
    hide Apply, Enabled, Ending, ExitRank, Do, Inv;
    LockAndWake(s);
    HolderAdvances(s);
    var a := HolderStep(s);
    StepInv(s, a);
    if a.act.Clear? {
      ApplyDo(s, a.t, a.act);
      EndingClear(s, a.t, e);
    } else {
      EndingStep(s, a, e);
    }
  }

  lemma LockAndWake(s: State)
    requires Inv(s)
    ensures LockInv(s) && WakeInv(s)
  {
  }

  lemma ApplyDo(s: State, t: nat, act: Action)
    requires Enabled(s, ByThread(t, act))
    ensures At(s, t) && Possible(s.threads[t], act, s) && Apply(s, ByThread(t, act)) == Do(s, t, act)
  {
  }

  lemma WorkerCloser(s: State, w: Work, e: nat)
    requires Inv(s) && Ending(s, e) && !s.mutex.Client? && WorkPossible(s, w) && !w.WakesSpuriously?
    ensures Closer(s, ByWorker(w), e)
  {
    hide Ending, ExitRank, Inv;
    StepInv(s, ByWorker(w));
    EndingStep(s, ByWorker(w), e);
    AdvanceFrame(s, w);
  }

  /** Short of the worker's return, and of a thread that is about to clear, some step leads on. */
  lemma EndingAdvances(s: State, e: nat) returns (a: Step)
    requires Inv(s) && Ending(s, e) && !Doomed(s, e) && s.worker != Exited
    ensures Closer(s, a, e)
    ensures if s.mutex.Client? then a == HolderStep(s) else a.ByWorker?
  {
    hide Closer, Enabled, Apply;
    LockAndWake(s);
    if s.mutex.Client? {
      a := HolderStep(s);
      HolderAdvances(s);
      HolderCloser(s, e);
    } else {
      EndingWorker(s, e);
      SomebodyMoves(s);
      var w: Work :| !w.WakesSpuriously? && WorkPossible(s, w);
      a := ByWorker(w);
      WorkerCloser(s, w, e);
    }
  }

  /**
   Until the worker has returned, it or the mutex holder can always move without a spurious wake-up;
   and unless the holder is about to clear the queue with the Exit in it, a move leads on to the return.
   */
  lemma EndingIsNeverStuck(s: State, e: nat)
    requires Reachable(s) && Ending(s, e) && s.worker != Exited
    ensures LockInv(s)
    ensures (s.mutex.Client? && Enabled(s, HolderStep(s))) || exists w: Work :: !w.WakesSpuriously? && WorkPossible(s, w)
    ensures !Doomed(s, e) ==> exists a :: Closer(s, a, e)
  {
    hide HolderStep, Enabled, Closer;
    ReachableInv(s);
    EndingWorker(s, e);
    SomebodyMoves(s);
    if !Doomed(s, e) {
      var a := EndingAdvances(s, e);
    }
  }

  // -------------------------------------------------------------------------------------
  // When closing hangs.

  /** A thread in ExitThread's join waits for an Exit that is queued, acted upon, or was dropped. */
  lemma JoinWaitsForItsExit(s: State, t: nat)
    requires Reachable(s) && At(s, t) && s.threads[t].Joining?
    ensures s.worker != Absent
    ensures s.threads[t].at in s.dropped || Ending(s, s.threads[t].at)
    ensures s.threads[t].at in s.dropped ==> !Ending(s, s.threads[t].at) && s.worker != Exited
  {
    ReachableInv(s);
    JoinOutcome(s, t);
  }

  lemma JoinOutcome(s: State, t: nat)
    requires HistoryInv(s) && ExitInv(s) && DeviceInv(s) && At(s, t) && s.threads[t].Joining?
    requires ClosingInv(s.pushed, Head(s), s.taken, s.since, s.worker == Absent, Closing(s))
    ensures s.worker != Absent
    ensures s.threads[t].at in s.dropped || Ending(s, s.threads[t].at)
    ensures s.threads[t].at in s.dropped ==> !Ending(s, s.threads[t].at) && s.worker != Exited
  {
    var e := s.threads[t].at;
    assert UsesDevice(s.threads[t]);
    assert Closing(s) == e;
    if e < Head(s) && e !in s.dropped {
      assert WasTaken(s.taken, e);
      var p :| 0 <= p < |s.taken| && s.taken[p].index == e;
      assert s.since <= p && s.taken[p].msg.body.Exit?;
      assert p == |s.taken| - 1;
    }
    if e in s.dropped {
      assert !WasTaken(s.taken, e);
      assert s.since < |s.taken| ==> s.taken[|s.taken| - 1].index != e;
    }
  }

  lemma HungStep(s: State, a: Step, t: nat)
    requires Inv(s) && Enabled(s, a) && At(s, t) && s.threads[t].Joining? && s.threads[t].at in s.dropped
    ensures var s' := Apply(s, a); At(s', t) && s'.threads[t] == s.threads[t] && s.threads[t].at in s'.dropped
  {
    hide Do, Advance;
    JoinOutcome(s, t);
    LaterStep(s, a);
    match a
    case ByThread(u, act) => DoDevice(s, u, act);
    case ByWorker(w) => AdvanceFrame(s, w);
  }

  /** If a Clear dropped the Exit, camera2_device_close never returns, whatever happens next. */
  lemma {:induction false} ClosingHangsOnceExitIsCleared(s: State, run: seq<Step>, t: nat)
    requires Inv(s) && Runnable(s, run) && At(s, t) && s.threads[t].Joining? && s.threads[t].at in s.dropped
    ensures var s' := Run(s, run); At(s', t) && s'.threads[t] == s.threads[t]
    decreases |run|
  {
    hide Do, Advance;
    if run != [] {
      StepInv(s, run[0]);
      HungStep(s, run[0], t);
      ClosingHangsOnceExitIsCleared(Apply(s, run[0]), run[1..], t);
    }
  }

  /** Once a thread holds the mutex to clear the queue with the Exit in it, the Exit will be dropped. */
  lemma DoomedStep(s: State, a: Step, t: nat)
    requires Inv(s) && Enabled(s, a) && At(s, t) && s.threads[t].Joining?
    requires s.threads[t].at !in s.dropped && Doomed(s, s.threads[t].at)
    ensures var s' := Apply(s, a);
      At(s', t) && s'.threads[t] == s.threads[t] && (s.threads[t].at in s'.dropped || Doomed(s', s.threads[t].at))
  {
    hide Inv, Do, Advance;
    LockAndWake(s);
    var e, tid := s.threads[t].at, s.mutex.tid;
    if a == HolderStep(s) {
      HolderAdvances(s);
      ExitPushed(s, t);
      DoFrame(s, tid, Clear);
    } else {
      OthersDoNotDelayHolder(s, a);
      match a
      case ByThread(u, act) => NoJoin(s, t, e); DoFrame(s, u, act); DoThreads(s, u, act);
      case ByWorker(w) => AdvanceFrame(s, w);
    }
  }

  lemma DoThreads(s: State, t: nat, act: Action)
    requires Enabled(s, ByThread(t, act))
    ensures var s' := Do(s, t, act); s'.threads == s.threads[t := s'.threads[t]]
  {
    hide Span, Serials, Head;
  }

  lemma ExitPushed(s: State, t: nat)
    requires Inv(s) && At(s, t) && s.threads[t].Joining?
    ensures s.threads[t].at < |s.pushed|
  {
    ExitIsPushed(s, t);
  }

  /** With its Exit still queued no thread can finish its join. */
  lemma NoJoin(s: State, t: nat, e: nat)
    requires Inv(s) && At(s, t) && s.threads[t].Joining? && s.threads[t].at == e && e !in s.dropped && Head(s) <= e
    ensures s.worker != Exited
  {
    JoinOutcome(s, t);
    EndingWorker(s, e);
  }

  lemma {:induction false} DoomedNeverReturns(s: State, run: seq<Step>, t: nat)
    requires Inv(s) && Runnable(s, run) && At(s, t) && s.threads[t].Joining?
    requires s.threads[t].at in s.dropped || Doomed(s, s.threads[t].at)
    ensures At(Run(s, run), t) && Run(s, run).threads[t] == s.threads[t]
    decreases |run|
  {
    hide Inv, Do, Advance, Doomed, Enabled, Apply;
    if s.threads[t].at in s.dropped {
      ClosingHangsOnceExitIsCleared(s, run, t);
    } else if run != [] {
      StepInv(s, run[0]);
      DoomedStep(s, run[0], t);
      DoomedNeverReturns(Apply(s, run[0]), run[1..], t);
    }
  }

  lemma StaysJoining(s: State, a: Step, t: nat)
    requires LockInv(s) && WakeInv(s) && At(s, t) && s.threads[t].Joining? && Enabled(s, a)
    requires if s.mutex.Client? then a == HolderStep(s) else a.ByWorker?
    ensures At(Apply(s, a), t) && Apply(s, a).threads[t] == s.threads[t]
  {
    if s.mutex.Client? { HolderAdvances(s); } else { AdvanceFrame(s, a.work); }
  }

  /** Otherwise the close can be brought to its end. */
  lemma {:induction false} CloseCanReturn(s: State, t: nat) returns (run: seq<Step>)
    requires Inv(s) && At(s, t) && s.threads[t].Joining?
    requires Ending(s, s.threads[t].at) && !Doomed(s, s.threads[t].at)
    ensures Runnable(s, run) && At(Run(s, run), t) && Run(s, run).threads[t] == Idle
    decreases ExitRank(s, s.threads[t].at), HoldRank(s)
  {
    hide Inv, Ending, Doomed, ExitRank, HoldRank, LockInv;
    var e := s.threads[t].at;
    LockAndWake(s);
    RankZero(s, e);
    if s.worker == Exited {
      run := [ByThread(t, Join)];
      RunCons(s, ByThread(t, Join), []);
      assert [ByThread(t, Join)] + [] == run;
    } else {
      var a := EndingAdvances(s, e);
      var s1 := Apply(s, a);
      StaysJoining(s, a, t);
      RankZero(s1, e);
      var rest := CloseCanReturn(s1, t);
      RunCons(s, a, rest);
      run := [a] + rest;
    }
  }

  ghost predicate CanReturn(s: State, t: nat) {
    exists run :: Runnable(s, run) && At(Run(s, run), t) && Run(s, run).threads[t] == Idle
  }

  /**
   A thread in the join of camera2_device_close can return exactly if its Exit has not been dropped and
   no thread holds the mutex to clear the queue while the Exit is in it; both can be seen in the state.
   */
  lemma CloseReturnsIff(s: State, t: nat)
    requires Reachable(s) && At(s, t) && s.threads[t].Joining?
    ensures CanReturn(s, t) <==> s.threads[t].at !in s.dropped && !Doomed(s, s.threads[t].at)
  {
    hide Run, Runnable, Doomed, Inv;
    ReachableInv(s);
    if s.threads[t].at in s.dropped || Doomed(s, s.threads[t].at) {
      forall run | Runnable(s, run)
        ensures At(Run(s, run), t) && Run(s, run).threads[t] == s.threads[t]
      {
        DoomedNeverReturns(s, run, t);
      }
    } else {
      JoinWaitsForItsExit(s, t);
      var run := CloseCanReturn(s, t);
    }
  }

  /** Closing alone on thread t, up to its join. */
  function CloseRun(s: State, t: nat, now: int): seq<Step>
    requires At(s, t) && s.threads[t] == Idle && s.device == None && s.worker != Absent
  {
    var start := ByThread(t, StartClose(now));
    [start] + Section(Apply(s, start), t)
  }

  lemma CloseRuns(s: State, t: nat, now: int)
    requires At(s, t) && s.threads[t] == Idle && s.device == None && s.worker != Absent && s.mutex == Nobody
    ensures Runnable(s, CloseRun(s, t, now))
    ensures var s' := Run(s, CloseRun(s, t, now));
      && s'.mutex == Nobody && At(s', t) && s'.pushed != [] && s'.queue != []
      && s'.threads == s.threads[t := Joining(|s'.pushed| - 1)]
      && s'.blocked == s.blocked && s'.guard == s.guard
  {
    var start := ByThread(t, StartClose(now));
    CloseStarts(s, t, now);
    hide Apply, Section;
    var s1 := Apply(s, start);
    SectionRuns(s1, t);
    RunCons(s, start, Section(s1, t));
  }

  lemma CloseStarts(s: State, t: nat, now: int)
    requires At(s, t) && s.threads[t] == Idle && s.device == None && s.worker != Absent && s.mutex == Nobody
    ensures var start := ByThread(t, StartClose(now));
      && Enabled(s, start)
      && var s1 := Apply(s, start);
         && s1.mutex == Nobody && At(s1, t) && s1.threads[t].WantPush? && s1.threads[t].op == Close
         && s1.threads == s.threads[t := s1.threads[t]] && s1.blocked == s.blocked && s1.guard == s.guard
  {
  }

  /** The device can be opened, and is then idle: what the theorem below asks for is reachable. */
  lemma OpeningReaches(n: nat, t: nat) returns (s: State)
    requires t < n
    ensures Reachable(s) && s.device == None && s.worker != Absent && s.mutex == Nobody && |s.threads| == n
    ensures forall u :: 0 <= u < n ==> s.threads[u] == Idle
  {
    var open, unblock := ByThread(t, StartOpen), ByThread(t, Unblock);
    var s1 := Apply(Init(n), open);
    RunCons(s1, unblock, []);
    assert [unblock] + [] == [unblock];
    RunCons(Init(n), open, [unblock]);
    s := Run(Init(n), [open] + [unblock]);
  }

  /** A thread that clears before the worker takes the Exit drops it. */
  lemma ClearDropsExit(s: State, t: nat, u: nat)
    requires Reachable(s) && At(s, t) && At(s, u) && s.threads[t].Joining? && s.threads[t].at >= Head(s)
    requires s.threads[u].WantClear? && s.mutex == Nobody
    ensures Runnable(s, Section(s, u)) && SectionDone(s.threads[u], u, Run(s, Section(s, u)))
    ensures var s' := Run(s, Section(s, u));
      && At(s', t) && s'.threads[t] == s.threads[t] && s.threads[t].at in s'.dropped
      && s'.blocked == s.blocked && s'.guard == s.guard
  {
    ReachableInv(s);
    ExitIsPushed(s, t);
    SectionRuns(s, u);
  }

  lemma ExitIsPushed(s: State, t: nat)
    requires DeviceInv(s) && At(s, t) && s.threads[t].Joining?
    requires ClosingInv(s.pushed, Head(s), s.taken, s.since, s.worker == Absent, Closing(s))
    ensures s.threads[t].at < |s.pushed|
  {
    assert UsesDevice(s.threads[t]);
  }

  lemma ReachableRun(s: State, run: seq<Step>)
    requires Reachable(s) && Runnable(s, run)
    ensures Reachable(Run(s, run))
  {
    var n: nat, before :| Runnable(Init(n), before) && Run(Init(n), before) == s;
    RunConcat(Init(n), before, run);
  }

  /** u is about to clear for its cancel_auto_focus, and t has pushed its Exit and joins. */
  lemma CancelThenClose(s: State, t: nat, u: nat, now: int) returns (run: seq<Step>)
    requires At(s, t) && At(s, u) && t != u && s.threads[t] == s.threads[u] == Idle
    requires s.device == None && s.worker != Absent && s.mutex == Nobody
    ensures Runnable(s, run)
    ensures var s' := Run(s, run);
      && At(s', t) && At(s', u) && s'.threads[u] == WantClear(CancelAutoFocus) && s'.mutex == Nobody
      && s'.pushed != [] && s'.queue != [] && s'.threads[t] == Joining(|s'.pushed| - 1)
      && s'.blocked && s'.guard == s.guard
  {
    var start := ByThread(u, StartCancelAutoFocus);
    var s1 := Apply(s, start);
    CancelStarts(s, u);
    CloseRuns(s1, t, now);
    RunCons(s, start, CloseRun(s1, t, now));
    run := [start] + CloseRun(s1, t, now);
  }

  lemma CancelStarts(s: State, u: nat)
    requires At(s, u) && s.threads[u] == Idle
    ensures var start := ByThread(u, StartCancelAutoFocus);
      && Enabled(s, start)
      && Apply(s, start) == s.(threads := s.threads[u := WantClear(CancelAutoFocus)], blocked := true)
  {
  }

  /** The cancel clears, and returns at its guard without having touched the device again. */
  lemma CancelReturns(s: State, t: nat, u: nat, now: int) returns (run: seq<Step>)
    requires Reachable(s) && At(s, t) && At(s, u) && s.threads[t].Joining? && s.threads[t].at >= Head(s)
    requires s.threads[u] == WantClear(CancelAutoFocus) && s.mutex == Nobody && s.blocked && now < s.guard
    ensures Runnable(s, run)
    ensures var s' := Run(s, run);
      && At(s', t) && At(s', u) && s'.threads[u] == Idle && s'.blocked
      && s'.threads[t] == s.threads[t] && s.threads[t].at in s'.dropped
  {
    ClearDropsExit(s, t, u);
    var s1 := Run(s, Section(s, u));
    var check := ByThread(u, CheckGuard(now));
    GuardReturns(s1, u, now);
    RunCons(s1, check, []);
    assert [check] + [] == [check];
    RunConcat(s, Section(s, u), [check]);
    run := Section(s, u) + [check];
  }

  lemma GuardReturns(s: State, u: nat, now: int)
    requires At(s, u) && s.threads[u] == Guarding && now < s.guard
    ensures Enabled(s, ByThread(u, CheckGuard(now)))
    ensures Apply(s, ByThread(u, CheckGuard(now))) == s.(threads := s.threads[u := Idle])
  {
  }

  /**
   So the race is real, with calls that are legal: the device is open and two threads are free; one
   focuses, begins a cancel within 500 ms, and clears after the other's close has pushed its Exit.  The
   cancel returns at its guard, and the close waits for ever, whatever happens next.
   */
  lemma CloseAgainstCancelHangs(s: State, t: nat, u: nat, focused: int, closed: int, cancelled: int) returns (run: seq<Step>)
    requires Reachable(s) && At(s, t) && At(s, u) && t != u && s.threads[t] == s.threads[u] == Idle
    requires s.device == None && s.worker != Absent && s.mutex == Nobody && cancelled - focused < 500
    ensures Runnable(s, run)
    ensures var s' := Run(s, run);
      && At(s', u) && s'.threads[u] == Idle && s'.blocked
      && forall more :: Runnable(s', more) ==> At(Run(s', more), t) && Run(s', more).threads[t].Joining?
  {
    hide Run, Runnable, FocusRun;
    FocusArmsGuard(s, u, focused);
    var focus := FocusRun(s, u, focused);
    var s1 := Run(s, focus);
    ReachableRun(s, focus);
    var close := CancelThenClose(s1, t, u, closed);
    var s2 := Run(s1, close);
    ReachableRun(s1, close);
    var cancel := CancelReturns(s2, t, u, cancelled);
    ReachableRun(s2, cancel);
    RunConcat(s1, close, cancel);
    RunConcat(s, focus, close + cancel);
    run := focus + (close + cancel);
    var s' := Run(s2, cancel);
    ReachableInv(s');
    forall more | Runnable(s', more)
      ensures At(Run(s', more), t) && Run(s', more).threads[t].Joining?
    {
      ClosingHangsOnceExitIsCleared(s', more, t);
    }
  }
}
