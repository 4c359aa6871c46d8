/**
 Where messages come from: every message enqueued carries the arguments of the call that made it, and
 the calls of camera/Camera2Wrapper.cpp, undisturbed, do what they are for, step by step.
 */
module CameraOrigins {
  import opened Options
  import opened CallbackWorker
  import opened CameraProtocol
  import opened CameraTheorems
  import opened CameraProgress

  /** Step `a` was taken in the run by some thread. */
  ghost predicate Took(run: seq<Step>, act: Action) { exists t: nat :: ByThread(t, act) in run }

  /** The call of the run that the message belongs to, with the arguments it has and the time it was stamped. */
  ghost predicate FromCall(run: seq<Step>, m: ThreadMsg) {
    match m.body
    case Execute(work) => Took(run, StartCallback(work)) && Took(run, Stamp(m.callerTS))
    case Update(h) => Took(run, StartSetCallbacks(h, m.callerTS))
    case Exit => Took(run, StartClose(m.callerTS))
  }

  ghost predicate ThreadFromCall(run: seq<Step>, pc: Pc) {
    && (pc.Passed? ==> Took(run, StartCallback(pc.work)))
    && (Carried(pc).Some? ==> FromCall(run, Carried(pc).value))
  }

  ghost predicate Originated(run: seq<Step>, s: State) {
    && (forall t :: 0 <= t < |s.threads| ==> ThreadFromCall(run, s.threads[t]))
    && (forall i :: 0 <= i < |s.pushed| ==> FromCall(run, s.pushed[i]))
  }

  lemma TookMore(run: seq<Step>, a: Step, act: Action)
    ensures Took(run, act) ==> Took(run + [a], act)
    ensures a.ByThread? && a.act == act ==> Took(run + [a], act)
  {
    if Took(run, act) {
      var t: nat :| ByThread(t, act) in run;
      assert ByThread(t, act) in run + [a];
    }
    if a.ByThread? && a.act == act { assert ByThread(a.t, act) in run + [a]; }
  }

  lemma FromCallMore(run: seq<Step>, a: Step, m: ThreadMsg)
    requires FromCall(run, m)
    ensures FromCall(run + [a], m)
  {
    hide Took;
    match m.body
    case Execute(work) => TookMore(run, a, StartCallback(work)); TookMore(run, a, Stamp(m.callerTS));
    case Update(h) => TookMore(run, a, StartSetCallbacks(h, m.callerTS));
    case Exit => TookMore(run, a, StartClose(m.callerTS));
  }

  lemma ThreadMore(run: seq<Step>, a: Step, pc: Pc)
    requires ThreadFromCall(run, pc)
    ensures ThreadFromCall(run + [a], pc)
  {
    hide Took, FromCall;
    if pc.Passed? { TookMore(run, a, StartCallback(pc.work)); }
    if Carried(pc).Some? { FromCallMore(run, a, Carried(pc).value); }
  }

  /** What a thread carries after its step: what it carried, or what the step's arguments say. */
  lemma CarriedAfter(s: State, t: nat, act: Action)
    requires Enabled(s, ByThread(t, act))
    ensures var pc, pc' := s.threads[t], Do(s, t, act).threads[t];
      && (pc'.Passed? ==> pc == pc' || (act.StartCallback? && act.work == pc'.work))
      && (Carried(pc').Some? ==>
            var m := Carried(pc').value;
            || Carried(pc) == Some(m)
            || (act.Stamp? && pc.Passed? && m.body == Execute(pc.work) && m.callerTS == act.now)
            || (act.StartSetCallbacks? && m.body == Update(act.h) && m.callerTS == act.now)
            || (act.StartClose? && m.body == Exit && m.callerTS == act.now))
  {
    hide Span, Serials, Head;
  }

  lemma StampOrigin(run: seq<Step>, t: nat, m: ThreadMsg)
    requires m.body.Execute? && Took(run, StartCallback(m.body.work))
    ensures FromCall(run + [ByThread(t, Stamp(m.callerTS))], m)
  {
    TookMore(run, ByThread(t, Stamp(m.callerTS)), StartCallback(m.body.work));
    TookMore(run, ByThread(t, Stamp(m.callerTS)), Stamp(m.callerTS));
  }

  lemma ThreadOrigin(s: State, run: seq<Step>, t: nat, act: Action)
    requires Enabled(s, ByThread(t, act)) && ThreadFromCall(run, s.threads[t])
    ensures At(Do(s, t, act), t) && ThreadFromCall(run + [ByThread(t, act)], Do(s, t, act).threads[t])
  {
    hide Do, Took, FromCall;
    DoThreadsUpdate(s, t, act);
    CarriedAfter(s, t, act);
    var a, pc' := ByThread(t, act), Do(s, t, act).threads[t];
    if pc'.Passed? { TookMore(run, a, StartCallback(pc'.work)); }
    if Carried(pc').Some? {
      var m := Carried(pc').value;
      if Carried(s.threads[t]) == Some(m) {
        FromCallMore(run, a, m);
      } else if act.Stamp? {
        StampOrigin(run, t, m);
      } else {
        MadeByStart(run, a, m);
      }
    }
  }

  lemma MadeByStart(run: seq<Step>, a: Step, m: ThreadMsg)
    requires a.ByThread?
    requires (a.act.StartSetCallbacks? && m.body == Update(a.act.h) && m.callerTS == a.act.now) ||
      (a.act.StartClose? && m.body == Exit && m.callerTS == a.act.now)
    ensures FromCall(run + [a], m)
  {
    TookMore(run, a, a.act);
  }

  lemma DoThreadsUpdate(s: State, t: nat, act: Action)
    requires Enabled(s, ByThread(t, act))
    ensures At(s, t) && |Do(s, t, act).threads| == |s.threads| && Do(s, t, act).threads == s.threads[t := Do(s, t, act).threads[t]]
  {
    hide Span, Serials, Head;
  }

  lemma OriginatedStep(s: State, run: seq<Step>, a: Step)
    requires Enabled(s, a) && Originated(run, s)
    ensures Originated(run + [a], Apply(s, a))
  {
    hide Do, Advance, FromCall, ThreadFromCall;
    forall t | 0 <= t < |s.threads|
      ensures ThreadFromCall(run + [a], s.threads[t])
    {
      ThreadMore(run, a, s.threads[t]);
    }
    forall i | 0 <= i < |s.pushed|
      ensures FromCall(run + [a], s.pushed[i])
    {
      FromCallMore(run, a, s.pushed[i]);
    }
    match a
    case ByThread(t, act) =>
      DoThreadsUpdate(s, t, act);
      DoFrame(s, t, act);
      ThreadOrigin(s, run, t, act);
      if act.Push? { CarriedIsFromCall(run, s.threads[t], a); }
    case ByWorker(w) => AdvanceFrame(s, w);
  }

  lemma CarriedIsFromCall(run: seq<Step>, pc: Pc, a: Step)
    requires ThreadFromCall(run, pc) && pc.Pushing?
    ensures FromCall(run + [a], pc.msg)
  {
    FromCallMore(run, a, pc.msg);
  }

  lemma {:induction false} OriginatedRun(s: State, before: seq<Step>, run: seq<Step>)
    requires Runnable(s, run) && Originated(before, s)
    ensures Originated(before + run, Run(s, run))
    decreases |run|
  {
    hide Apply, Enabled, Originated;
    if run == [] {
      assert before + run == before;
    } else {
      OriginatedStep(s, before, run[0]);
      OriginatedRun(Apply(s, run[0]), before + [run[0]], run[1..]);
      assert before + [run[0]] + run[1..] == before + run;
    }
  }

  /**
   Over every run from the start: each message enqueued carries exactly what some call of the run was
   given: a callback its arguments and the time it was stamped, an update the two pointers, an exit nothing.
   */
  lemma MessagesComeFromCalls(n: nat, run: seq<Step>, i: nat)
    requires Runnable(Init(n), run) && i < |Run(Init(n), run).pushed|
    ensures var m := Run(Init(n), run).pushed[i];
      && (m.body.Execute? ==> Took(run, StartCallback(m.body.work)) && Took(run, Stamp(m.callerTS)))
      && (m.body.Update? ==> Took(run, StartSetCallbacks(m.body.callbacks, m.callerTS)))
      && (m.body.Exit? ==> Took(run, StartClose(m.callerTS)))
  {
    OriginatedRun(Init(n), [], run);
    assert [] + run == run;
  }

  /** So the user is only ever called with arguments that a HAL thread passed to a wrapper. */
  lemma CallsComeFromWrappers(n: nat, run: seq<Step>, k: nat)
    requires Runnable(Init(n), run) && k < |Run(Init(n), run).calls|
    ensures Took(run, StartCallback(Run(Init(n), run).calls[k].invocation.work))
  {
    var s := Run(Init(n), run);
    assert Reachable(s);
    CallsFollowEnqueueOrder(s);
    MessagesComeFromCalls(n, run, Origin(s, s.calls[k]));
  }

  // -------------------------------------------------------------------------------------
  // Single calls with nobody in between.

  /** A wrapper call that is not blocked can put its message, stamped, at the end of the queue. */
  lemma WrapperPushes(s: State, t: nat, work: WorkerMessage, now: int) returns (run: seq<Step>)
    requires At(s, t) && s.threads[t] == Idle && s.mutex == Nobody && !s.blocked
    ensures Runnable(s, run)
    ensures var s' := Run(s, run);
      && s'.threads == s.threads && s'.mutex == Nobody
      && s'.queue == s.queue + [ThreadMsg(s.born, Execute(work), now)]
      && s'.pushed == s.pushed + [ThreadMsg(s.born, Execute(work), now)]
  {
    var call, stamp := ByThread(t, StartCallback(work)), ByThread(t, Stamp(now));
    var s1 := Apply(s, call);
    var s2 := Apply(s1, stamp);
    PushRuns(s2, t);
    RunCons(s1, stamp, Section(s2, t));
    RunCons(s, call, [stamp] + Section(s2, t));
    run := [call] + ([stamp] + Section(s2, t));
  }

  /** A blocked one returns at once and leaves no trace. */
  lemma BlockedWrapperReturns(s: State, t: nat, work: WorkerMessage)
    requires At(s, t) && s.threads[t] == Idle && s.blocked
    ensures Enabled(s, ByThread(t, StartCallback(work))) && Apply(s, ByThread(t, StartCallback(work))) == s
  {
  }

  /** What the critical section of a producer adds to the queue. */
  lemma PushRuns(s: State, t: nat)
    requires At(s, t) && s.mutex == Nobody && s.threads[t].WantPush?
    ensures Runnable(s, Section(s, t)) && SectionDone(s.threads[t], t, Run(s, Section(s, t)))
    ensures var s' := Run(s, Section(s, t));
      && s'.pushed == s.pushed + [s.threads[t].msg] && s'.queue == s.queue + [s.threads[t].msg]
      && s'.threads == s.threads[t := s'.threads[t]] && s'.blocked == s.blocked
  {
    SectionRuns(s, t);
    var sec := Section(s, t);
    SectionBegins(s, t);
    var s1 := Apply(s, sec[0]);
    var s2 := Apply(s1, sec[1]);
    SectionEnds(s2, t);
    var rest := [sec[2], sec[3]];
    RunCons(s1, sec[1], rest);
    RunCons(s, sec[0], [sec[1]] + rest);
    assert [sec[0]] + ([sec[1]] + rest) == sec;
  }

  /** set_callbacks enqueues its two pointers and then calls the vendor. */
  lemma SetCallbacksPushes(s: State, t: nat, h: CallbackData, now: int, back: int) returns (run: seq<Step>)
    requires At(s, t) && s.threads[t] == Idle && s.mutex == Nobody
    ensures Runnable(s, run) && run != [] && run[|run| - 1] == ByThread(t, VendorReturns(back))
    ensures var s' := Run(s, run);
      s'.threads == s.threads && s'.queue == s.queue + [ThreadMsg(s.born, Update(h), now)]
  {
    var start, end := ByThread(t, StartSetCallbacks(h, now)), ByThread(t, VendorReturns(back));
    var s1 := Apply(s, start);
    PushRuns(s1, t);
    var s2 := Run(s1, Section(s1, t));
    VendorStep(s2, t, back);
    RunCons(s2, end, []);
    assert [end] + [] == [end];
    RunConcat(s1, Section(s1, t), [end]);
    RunCons(s, start, Section(s1, t) + [end]);
    run := [start] + (Section(s1, t) + [end]);
  }

  lemma VendorStep(s: State, t: nat, now: int)
    requires At(s, t) && s.threads[t] == InVendor(SetCallbacks)
    ensures Enabled(s, ByThread(t, VendorReturns(now)))
    ensures Apply(s, ByThread(t, VendorReturns(now))) == s.(threads := s.threads[t := Idle])
  {
  }

  /** stop_preview blocks, clears the queue, calls the vendor, and unblocks, in this order. */
  function StopPreviewSteps(t: nat, back: int): seq<Step> {
    [ByThread(t, StartStopPreview)] +
    ([ByThread(t, Lock), ByThread(t, Clear), ByThread(t, Notify), ByThread(t, Unlock)] +
     [ByThread(t, VendorReturns(back)), ByThread(t, Unblock)])
  }

  lemma StopPreviewRuns(s: State, t: nat, back: int)
    requires At(s, t) && s.threads[t] == Idle && s.mutex == Nobody
    ensures Runnable(s, StopPreviewSteps(t, back))
    ensures var s' := Run(s, StopPreviewSteps(t, back)); s'.threads == s.threads && s'.queue == [] && !s'.blocked
  {
    hide Run, Runnable;
    var start := ByThread(t, StartStopPreview);
    var sec := [ByThread(t, Lock), ByThread(t, Clear), ByThread(t, Notify), ByThread(t, Unlock)];
    var end := [ByThread(t, VendorReturns(back)), ByThread(t, Unblock)];
    var s1 := Apply(s, start);
    assert sec == Section(s1, t);
    SectionRuns(s1, t);
    var s2 := Run(s1, sec);
    StopPreviewEnds(s2, t, back);
    RunConcat(s1, sec, end);
    RunCons(s, start, sec + end);
  }

  lemma StopPreviewEnds(s: State, t: nat, back: int)
    requires At(s, t) && s.threads[t] == InVendor(StopPreview)
    ensures var end := [ByThread(t, VendorReturns(back)), ByThread(t, Unblock)];
      && Runnable(s, end)
      && Run(s, end) == s.(threads := s.threads[t := Idle], blocked := false)
  {
    var s1 := Apply(s, ByThread(t, VendorReturns(back)));
    RunCons(s1, ByThread(t, Unblock), []);
    assert [ByThread(t, Unblock)] + [] == [ByThread(t, Unblock)];
    RunCons(s, ByThread(t, VendorReturns(back)), [ByThread(t, Unblock)]);
    assert [ByThread(t, VendorReturns(back))] + [ByThread(t, Unblock)] == [ByThread(t, VendorReturns(back)), ByThread(t, Unblock)];
  }
}
