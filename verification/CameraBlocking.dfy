/**
 BlockCbs over whole runs: what decides its value, how cancel_auto_focus leaves it whoever else is
 running, and what the user still sees while it stays 1.
 */
module CameraBlocking {
  import opened CameraProtocol
  import opened CameraTheorems
  import opened CameraProgress

  // -------------------------------------------------------------------------------------
  // The value of BlockCbs.

  /** stop_preview and cancel_auto_focus begin by setting BlockCbs to 1. */
  predicate Raises(a: Step) { a.ByThread? && (a.act.StartStopPreview? || a.act.StartCancelAutoFocus?) }

  predicate Lowers(a: Step) { a.ByThread? && a.act.Unblock? }

  ghost predicate NoneLowers(run: seq<Step>, from: nat) { forall j :: from <= j < |run| ==> !Lowers(run[j]) }

  ghost predicate RaisedAt(run: seq<Step>, i: nat) { i < |run| && Raises(run[i]) && NoneLowers(run, i + 1) }

  /** BlockCbs was 1 before the run and nothing lowered it, or it was raised and not lowered again. */
  ghost predicate StillRaised(before: bool, run: seq<Step>) {
    (before && NoneLowers(run, 0)) || exists i: nat :: RaisedAt(run, i)
  }

  lemma BlockedAfter(s: State, a: Step)
    requires Enabled(s, a)
    ensures Apply(s, a).blocked == (Raises(a) || (s.blocked && !Lowers(a)))
  {
  }

  lemma NoneLowersCons(a: Step, rest: seq<Step>, i: nat)
    ensures NoneLowers([a] + rest, i + 1) <==> NoneLowers(rest, i)
    ensures NoneLowers([a] + rest, 0) <==> !Lowers(a) && NoneLowers(rest, 0)
  {
    var run := [a] + rest;
    assert run[0] == a && forall j :: 0 <= j < |rest| ==> run[j + 1] == rest[j];
    if NoneLowers(run, i + 1) {
      forall j | i <= j < |rest|
        ensures !Lowers(rest[j])
      {
        assert !Lowers(run[j + 1]);
      }
    }
    if NoneLowers(run, 0) {
      forall j | 0 <= j < |rest|
        ensures !Lowers(rest[j])
      {
        assert !Lowers(run[j + 1]);
      }
    }
  }

  lemma StillRaisedCons(before: bool, a: Step, rest: seq<Step>)
    ensures StillRaised(before, [a] + rest) <==> StillRaised(Raises(a) || (before && !Lowers(a)), rest)
  {
    hide NoneLowers;
    var run := [a] + rest;
    NoneLowersCons(a, rest, 0);
    forall i: nat
      ensures RaisedAt(rest, i) <==> RaisedAt(run, i + 1)
    {
      NoneLowersCons(a, rest, i + 1);
    }
    assert RaisedAt(run, 0) <==> Raises(a) && NoneLowers(rest, 0);
    if i: nat :| RaisedAt(run, i) {
      assert i > 0 ==> RaisedAt(rest, i - 1);
    }
    assert Raises(a) ==> !Lowers(a);
  }

  /** After any run of any threads, BlockCbs is 1 exactly when the last step that changed it raised it. */
  lemma {:induction false} BlockedFollowsRun(s: State, run: seq<Step>)
    requires Runnable(s, run)
    ensures Run(s, run).blocked <==> StillRaised(s.blocked, run)
    decreases |run|
  {
    hide Apply, StillRaised;
    if run == [] {
      NothingRaised(s.blocked);
    } else {
      BlockedAfter(s, run[0]);
      BlockedFollowsRun(Apply(s, run[0]), run[1..]);
      StillRaisedCons(s.blocked, run[0], run[1..]);
      assert run == [run[0]] + run[1..];
    }
  }

  lemma NothingRaised(before: bool)
    ensures StillRaised(before, []) == before
  {
  }

  // -------------------------------------------------------------------------------------
  // cancel_auto_focus, whoever else is running.

  /** Inside camera2_cancel_auto_focus, after it has raised BlockCbs. */
  predicate Cancelling(pc: Pc) {
    || pc.Guarding?
    || ((pc.WantClear? || pc.Clearing? || pc.Notifying? || pc.Unlocking? || pc.InVendor? || pc.Unblocking?) && pc.op.CancelAutoFocus?)
  }

  /** Thread t stays inside its cancel_auto_focus over the whole run. */
  predicate WithinCancel(s: State, run: seq<Step>, t: nat)
    requires Runnable(s, run)
    decreases |run|
  {
    At(s, t) && Cancelling(s.threads[t]) && (run == [] || WithinCancel(Apply(s, run[0]), run[1..], t))
  }

  /** A cancel ends by unblocking, or at its time guard; the guard ends it exactly when it is active. */
  lemma CancelEnds(s: State, t: nat, act: Action)
    requires Enabled(s, ByThread(t, act)) && Cancelling(s.threads[t])
    ensures var s' := Do(s, t, act);
      && (Cancelling(s'.threads[t]) || s'.threads[t] == Idle)
      && (s'.threads[t] == Idle <==> act.Unblock? || (act.CheckGuard? && act.now < s.guard))
  {
  }

  lemma {:induction false} WithinCancelEnds(s: State, run: seq<Step>, t: nat)
    requires Runnable(s, run) && WithinCancel(s, run, t)
    ensures At(Run(s, run), t) && Cancelling(Run(s, run).threads[t])
    decreases |run|
  {
    hide Apply;
    if run != [] { WithinCancelEnds(Apply(s, run[0]), run[1..], t); }
  }

  /**
   Whatever the other threads do from the moment t starts its cancel_auto_focus until it returns:
   BlockCbs is 1 at the return exactly when t returned at its time guard, the guard being active, and
   no other thread lowered BlockCbs in between without it being raised again.
   */
  lemma CancelReturnsBlockedIff(s: State, t: nat, mid: seq<Step>, last: Action)
    requires At(s, t) && s.threads[t] == Idle
    requires var s1 := Do(s, t, StartCancelAutoFocus);
      Runnable(s1, mid) && WithinCancel(s1, mid, t) && Enabled(Run(s1, mid), ByThread(t, last)) &&
      Do(Run(s1, mid), t, last).threads[t] == Idle
    ensures var s2 := Run(Do(s, t, StartCancelAutoFocus), mid);
      Do(s2, t, last).blocked <==> last.CheckGuard? && last.now < s2.guard && StillRaised(true, mid)
    ensures NoneLowers(mid, 0) ==> StillRaised(true, mid)
  {
    hide StillRaised, Runnable, Run, WithinCancel, Cancelling, Do, Apply, Enabled;
    var s1 := Do(s, t, StartCancelAutoFocus);
    var s2 := Run(s1, mid);
    StartRaises(s, t);
    WithinCancelEnds(s1, mid, t);
    BlockedFollowsRun(s1, mid);
    CancelEnds(s2, t, last);
    LastStep(s2, t, last);
    NoneLowersRaised(mid);
  }

  lemma StartRaises(s: State, t: nat)
    requires At(s, t) && s.threads[t] == Idle
    ensures Enabled(s, ByThread(t, StartCancelAutoFocus)) && Do(s, t, StartCancelAutoFocus).blocked
  {
  }

  lemma LastStep(s: State, t: nat, last: Action)
    requires Enabled(s, ByThread(t, last)) && (last.Unblock? || last.CheckGuard?)
    ensures Do(s, t, last).blocked == (s.blocked && !last.Unblock?)
  {
    BlockedAfter(s, ByThread(t, last));
  }

  lemma NoneLowersRaised(run: seq<Step>)
    ensures NoneLowers(run, 0) ==> StillRaised(true, run)
  {
  }

  /** The proviso about the other threads matters: a stop_preview that ends in between lowers BlockCbs. */
  lemma StopPreviewLiftsTheBlock(s: State, t: nat, u: nat, now: int)
    requires At(s, t) && At(s, u) && s.threads[t] == Guarding && s.threads[u] == Unblocking(StopPreview) && now < s.guard
    ensures var run := [ByThread(u, Unblock), ByThread(t, CheckGuard(now))];
      Runnable(s, run) && At(Run(s, run), t) && Run(s, run).threads[t] == Idle && !Run(s, run).blocked
  {
    var s1 := Apply(s, ByThread(u, Unblock));
    RunCons(s1, ByThread(t, CheckGuard(now)), []);
    assert [ByThread(t, CheckGuard(now))] + [] == [ByThread(t, CheckGuard(now))];
    RunCons(s, ByThread(u, Unblock), [ByThread(t, CheckGuard(now))]);
    assert [ByThread(u, Unblock)] + [ByThread(t, CheckGuard(now))] == [ByThread(u, Unblock), ByThread(t, CheckGuard(now))];
  }

  // -------------------------------------------------------------------------------------
  // The time guard.

  /** The vendor's auto_focus returns in this step. */
  predicate FocusReturns(s: State, a: Step) {
    a.ByThread? && a.act.VendorReturns? && At(s, a.t) && s.threads[a.t] == InVendor(AutoFocus)
  }

  predicate NoFocusReturns(s: State, run: seq<Step>)
    requires Runnable(s, run)
    decreases |run|
  {
    run == [] || (!FocusReturns(s, run[0]) && NoFocusReturns(Apply(s, run[0]), run[1..]))
  }

  lemma GuardAfter(s: State, a: Step)
    requires Enabled(s, a)
    ensures Apply(s, a).guard == if FocusReturns(s, a) then a.act.now + GUARD_MS else s.guard
  {
  }

  lemma {:induction false} GuardStays(s: State, run: seq<Step>)
    requires Runnable(s, run) && NoFocusReturns(s, run)
    ensures Run(s, run).guard == s.guard
    decreases |run|
  {
    hide Apply, FocusReturns;
    if run != [] {
      GuardAfter(s, run[0]);
      GuardStays(Apply(s, run[0]), run[1..]);
    }
  }

  /**
   Over all interleavings: let the latest auto_focus return at time `focused` and a cancel, started
   after that by any thread, return in step `last`.  Callbacks are left blocked exactly when the cancel
   read the clock within 500 ms of `focused` and nobody else unblocked them for good in between.
   */
  lemma CancelAfterFocusIff(s: State, u: nat, focused: int, before: seq<Step>, t: nat, mid: seq<Step>, last: Action)
    requires At(s, u) && s.threads[u] == InVendor(AutoFocus)
    requires var s0 := Do(s, u, VendorReturns(focused));
      && Runnable(s0, before) && NoFocusReturns(s0, before)
      && At(Run(s0, before), t) && Run(s0, before).threads[t] == Idle
    requires var s1 := Do(Run(Do(s, u, VendorReturns(focused)), before), t, StartCancelAutoFocus);
      && Runnable(s1, mid) && NoFocusReturns(s1, mid) && WithinCancel(s1, mid, t)
      && Enabled(Run(s1, mid), ByThread(t, last)) && Do(Run(s1, mid), t, last).threads[t] == Idle
    ensures var s1 := Do(Run(Do(s, u, VendorReturns(focused)), before), t, StartCancelAutoFocus);
      Do(Run(s1, mid), t, last).blocked <==>
        last.CheckGuard? && last.now - focused < 500 && StillRaised(true, mid)
  {
    hide StillRaised, Runnable, Run, WithinCancel, NoFocusReturns, Do, Apply, Enabled;
    var s0 := Do(s, u, VendorReturns(focused));
    FocusArms(s, u, focused);
    GuardStays(s0, before);
    var sc := Run(s0, before);
    StartKeepsGuard(sc, t);
    GuardStays(Do(sc, t, StartCancelAutoFocus), mid);
    CancelReturnsBlockedIff(sc, t, mid, last);
  }

  lemma FocusArms(s: State, u: nat, now: int)
    requires At(s, u) && s.threads[u] == InVendor(AutoFocus)
    ensures Enabled(s, ByThread(u, VendorReturns(now))) && Do(s, u, VendorReturns(now)).guard == now + 500
  {
  }

  lemma StartKeepsGuard(s: State, t: nat)
    requires At(s, t) && s.threads[t] == Idle
    ensures Enabled(s, ByThread(t, StartCancelAutoFocus)) && Do(s, t, StartCancelAutoFocus).guard == s.guard
  {
  }

  // -------------------------------------------------------------------------------------
  // What the user still sees.

  lemma {:induction false} BlockedUntilLowered(s: State, run: seq<Step>)
    requires Runnable(s, run) && s.blocked && NoneLowers(run, 0)
    ensures BlockedThroughout(s, run)
    decreases |run|
  {
    hide Apply;
    if run != [] {
      assert !Lowers(run[0]);
      BlockedAfter(s, run[0]);
      assert forall j :: 0 <= j < |run[1..]| ==> run[1..][j] == run[j + 1];
      BlockedUntilLowered(Apply(s, run[0]), run[1..]);
    }
  }

  /**
   What a cancel that returned at its guard costs: whatever runs afterwards, until some thread lowers
   BlockCbs the user sees no callback but the one in the worker's hand, those still queued, and those
   of wrapper calls that were past their check; BlockCbs is 1 all the time.
   */
  lemma SilentUntilUnblocked(s: State, run: seq<Step>)
    requires Reachable(s) && s.blocked && Runnable(s, run) && NoneLowers(run, 0)
    ensures Run(s, run).blocked
    ensures |Run(s, run).calls|
         <= |s.calls| + (if Undispatched(s.worker) then 1 else 0) + Executes(s.queue) + InFlight(s.threads)
  {
    BlockedUntilLowered(s, run);
    FewCallbacksWhileBlocked(s, run);
    BlockedFollowsRun(s, run);
    NoneLowersRaised(run);
  }

  /** Only a stop_preview, a cancel past its guard, or an open can lower BlockCbs. */
  lemma WhoLowers(s: State, a: Step)
    requires Reachable(s) && Enabled(s, a) && s.blocked && !Apply(s, a).blocked
    ensures a.ByThread? && s.threads[a.t].Unblocking?
    ensures var op := s.threads[a.t].op; op.StopPreview? || op.CancelAutoFocus? || op.Open?
  {
    ReachableInv(s);
    BlockedAfter(s, a);
  }
}
