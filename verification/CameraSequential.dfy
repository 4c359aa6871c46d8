/**
 The worker loop as a method (CallbackWorker.CallbackWorkerThread.Process) and the worker of the
 interleaved protocol are the same: left alone, the latter makes the calls the method computes.
 */
module CameraSequential {
  import opened CallbackWorker
  import opened CameraProtocol
  import opened CameraProgress

  /** Messages behind an Exit are never delivered. */
  lemma {:induction false} NothingBehindExit(h: CallbackData, q: seq<ThreadMsg>, r: seq<ThreadMsg>, clock: nat -> int, tick: nat)
    requires HasExit(q)
    ensures Delivered(h, q + r, clock, tick) == Delivered(h, q, clock, tick)
    decreases |q|
  {
    assert (q + r)[0] == q[0] && (q + r)[1..] == q[1..] + r;
    if !q[0].body.Exit? {
      var m :| m in q && m.body.Exit?;
      assert m in q[1..];
      NothingBehindExit(Installed(h, q[0].body), q[1..], r, clock, tick + 1);
    }
  }

  function InstalledAll(h: CallbackData, q: seq<ThreadMsg>): CallbackData
    decreases |q|
  {
    if q == [] then h else InstalledAll(Installed(h, q[0].body), q[1..])
  }

  /** Delivery can pause between any two messages and resume with the pointers installed so far. */
  lemma {:induction false} DeliveryResumes(h: CallbackData, q: seq<ThreadMsg>, r: seq<ThreadMsg>, clock: nat -> int, tick: nat)
    requires !HasExit(q)
    ensures Delivered(h, q + r, clock, tick)
         == Delivered(h, q, clock, tick) + Delivered(InstalledAll(h, q), r, clock, tick + |q|)
    decreases |q|
  {
    if q == [] {
      assert q + r == r;
    } else {
      assert (q + r)[0] == q[0] && (q + r)[1..] == q[1..] + r;
      DeliveryResumes(Installed(h, q[0].body), q[1..], r, clock, tick + 1);
    }
  }

  /** The pointers installed by a queue are those of its last Update, or the ones before it. */
  lemma {:induction false} InstalledAllIs(h: CallbackData, q: seq<ThreadMsg>, u: int)
    requires -1 <= u < |q| && (u >= 0 ==> q[u].body.Update?)
    requires forall i :: 0 <= i < |q| && u < i ==> !q[i].body.Update?
    ensures InstalledAll(h, q) == if u < 0 then h else q[u].body.callbacks
    decreases |q|
  {
    if q != [] {
      assert forall i :: 0 <= i < |q| - 1 ==> q[1..][i] == q[i + 1];
      InstalledAllIs(Installed(h, q[0].body), q[1..], if u <= 0 then -1 else u - 1);
    }
  }

  /**
   What one message of a queue contributes, in place: a callback message under 5 ms old whose pointer is
   set at its turn is called once, with that pointer; nothing else is called for it.
   */
  lemma DeliveredAt(h: CallbackData, q: seq<ThreadMsg>, clock: nat -> int, i: nat)
    requires i < |q| && !HasExit(q[..i]) && !q[i].body.Exit?
    ensures var p, m := InstalledAll(h, q[..i]), q[i];
      Delivered(h, q, clock, 0)
        == Delivered(h, q[..i], clock, 0)
         + (if !m.body.Execute? || clock(i) - m.callerTS >= 5 then []
            else match m.body.work
              case NotifyMessage(_, _, _, _) => if p.notify.Some? then [Invocation(p.notify.value, m.body.work)] else []
              case DataMessage(_, _, _, _, _) => if p.data.Some? then [Invocation(p.data.value, m.body.work)] else [])
         + Delivered(Installed(p, m.body), q[i + 1..], clock, i + 1)
  {
    hide Delivered;
    assert q[..i] + q[i..] == q && q[i..][0] == q[i] && q[i..][1..] == q[i + 1..];
    DeliveryResumes(h, q[..i], q[i..], clock, 0);
    DeliveredNext(InstalledAll(h, q[..i]), q[i..], clock, i);
    var rest := Delivered(Installed(InstalledAll(h, q[..i]), q[i].body), q[i + 1..], clock, i + 1);
    assert Delivered(h, q[..i], clock, 0) + (Made(InstalledAll(h, q[..i]), q[i], clock(i)) + rest)
        == Delivered(h, q[..i], clock, 0) + Made(InstalledAll(h, q[..i]), q[i], clock(i)) + rest;
  }

  function Invocations(calls: seq<Call>): (r: seq<Invocation>)
    ensures |r| == |calls|
  {
    seq(|calls|, i requires 0 <= i < |calls| => calls[i].invocation)
  }

  predicate Ready(s: State) { s.worker == Starting && s.mutex == Nobody }

  /** The worker takes the front message up to the point of acting on it. */
  lemma TakesFront(s: State)
    requires Ready(s) && s.queue != []
    ensures var run := [ByWorker(Locks), ByWorker(Tests), ByWorker(Releases)];
      && Runnable(s, run)
      && var s' := Run(s, run);
         && s'.worker == InHand(s.queue[0]) && s'.mutex == Nobody && s'.queue == s.queue[1..]
         && s'.callbacks == s.callbacks && s'.calls == s.calls
  {
    var s1 := Apply(s, ByWorker(Locks));
    var s2 := Apply(s1, ByWorker(Tests));
    RunCons(s2, ByWorker(Releases), []);
    RunCons(s1, ByWorker(Tests), [ByWorker(Releases)] + []);
    RunCons(s, ByWorker(Locks), [ByWorker(Tests)] + ([ByWorker(Releases)] + []));
    assert [ByWorker(Locks)] + ([ByWorker(Tests)] + ([ByWorker(Releases)] + []))
        == [ByWorker(Locks), ByWorker(Tests), ByWorker(Releases)];
  }

  lemma Finishes(s: State) returns (run: seq<Step>)
    requires (s.worker.Calling? || s.worker.Finishing?) && s.mutex == Nobody
    ensures Runnable(s, run)
    ensures var s' := Run(s, run); Ready(s') && s'.queue == s.queue && s'.callbacks == s.callbacks && s'.calls == s.calls
  {
    run := [ByWorker(Frees)];
    if s.worker.Calling? {
      var s1 := Apply(s, ByWorker(Returns));
      RunCons(s1, ByWorker(Frees), []);
      assert [ByWorker(Frees)] + [] == run;
      RunCons(s, ByWorker(Returns), run);
      run := [ByWorker(Returns)] + run;
    } else {
      RunCons(s, ByWorker(Frees), []);
      assert [ByWorker(Frees)] + [] == run;
    }
  }

  lemma ActsOnHand(s: State, now: int)
    requires s.worker.InHand? && !s.worker.msg.body.Exit? && s.mutex == Nobody
    ensures var s' := Apply(s, ByWorker(Dispatches(now)));
      && (s'.worker.Calling? || s'.worker.Finishing?) && s'.mutex == Nobody && s'.queue == s.queue
      && s'.callbacks == Installed(s.callbacks, s.worker.msg.body)
      && Invocations(s'.calls) == Invocations(s.calls) + Made(s.callbacks, s.worker.msg, now)
  {
  }

  lemma HandlesFront(s: State, now: int) returns (run: seq<Step>)
    requires Ready(s) && s.queue != [] && !s.queue[0].body.Exit?
    ensures Runnable(s, run)
    ensures var s' := Run(s, run);
      && Ready(s') && s'.queue == s.queue[1..]
      && s'.callbacks == Installed(s.callbacks, s.queue[0].body)
      && Invocations(s'.calls) == Invocations(s.calls) + Made(s.callbacks, s.queue[0], now)
  {
    TakesFront(s);
    var take := [ByWorker(Locks), ByWorker(Tests), ByWorker(Releases)];
    var s1 := Run(s, take);
    ActsOnHand(s1, now);
    var act := ByWorker(Dispatches(now));
    var rest := Finishes(Apply(s1, act));
    RunCons(s1, act, rest);
    RunConcat(s, take, [act] + rest);
    run := take + ([act] + rest);
  }

  /** The interleaved worker, running alone, makes exactly the calls of the sequential loop. */
  lemma {:induction false} WorkerAloneDelivers(s: State, clock: nat -> int, tick: nat) returns (run: seq<Step>)
    requires Ready(s)
    ensures Runnable(s, run)
    ensures Invocations(Run(s, run).calls) == Invocations(s.calls) + Delivered(s.callbacks, s.queue, clock, tick)
    ensures Run(s, run).queue == [] || Run(s, run).queue[0].body.Exit?
    decreases |s.queue|
  {
    run := [];
    if s.queue != [] && !s.queue[0].body.Exit? {
      var first := HandlesFront(s, clock(tick));
      var s1 := Run(s, first);
      var rest := WorkerAloneDelivers(s1, clock, tick + 1);
      RunConcat(s, first, rest);
      run := first + rest;
    }
  }
}
