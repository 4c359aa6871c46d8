/**
 What holds over whole runs of the camera callback protocol.
 Every theorem is about all states reachable from any number of threads, in every interleaving.
 */
module CameraTheorems {
  import opened Options
  import opened CallbackWorker
  import opened CameraProtocol

  ghost predicate Reachable(s: State) {
    exists n: nat, run :: Runnable(Init(n), run) && Run(Init(n), run) == s
  }

  lemma ReachableInv(s: State)
    requires Reachable(s)
    ensures Inv(s)
  {
    var n: nat, run :| Runnable(Init(n), run) && Run(Init(n), run) == s;
    InitInv(n);
    RunInv(Init(n), run);
  }

  // -------------------------------------------------------------------------------------
  // Which callbacks are made, in which order, through which pointers.

  /** Place in the enqueue order of the message a call was made for. */
  function Origin(s: State, c: Call): int
    requires 0 <= c.at < |s.taken|
  {
    s.taken[c.at].index
  }

  /** User callbacks follow the enqueue order, each message is executed at most once, and only while fresh. */
  lemma CallsFollowEnqueueOrder(s: State)
    requires Reachable(s)
    ensures forall k :: 0 <= k < |s.calls| ==>
      && 0 <= s.calls[k].at < |s.taken| && 0 <= Origin(s, s.calls[k]) < |s.pushed|
      && s.pushed[Origin(s, s.calls[k])].body == Execute(s.calls[k].invocation.work)
      && s.calls[k].now - s.pushed[Origin(s, s.calls[k])].callerTS < 5
    ensures forall j, k :: 0 <= j < k < |s.calls| ==> Origin(s, s.calls[j]) < Origin(s, s.calls[k])
  {
    ReachableInv(s);
  }

  /** The pointers installed by `ts` are those of its last Update. */
  lemma {:induction false} InstalledByLast(ts: seq<Taken>) returns (p: int)
    ensures p == -1 ==> InstalledBy(ts) == NO_CALLBACKS
    ensures p != -1 ==> 0 <= p < |ts| && ts[p].msg.body == Update(InstalledBy(ts))
    ensures -1 <= p && forall q :: p < q < |ts| ==> !ts[q].msg.body.Update?
    decreases |ts|
  {
    if ts == [] {
      p := -1;
    } else if ts[|ts| - 1].msg.body.Update? {
      p := |ts| - 1;
    } else {
      p := InstalledByLast(ts[..|ts| - 1]);
    }
  }

  /** The Update whose pointers a justified call used. */
  lemma UpdateBefore(ts: seq<Taken>, c: Call) returns (q: int)
    requires Justified(ts, c)
    ensures c.since <= q < c.at && ts[q].msg.body.Update?
    ensures c.invocation.work.NotifyMessage? ==> ts[q].msg.body.callbacks.notify == Some(c.invocation.fn)
    ensures c.invocation.work.DataMessage? ==> ts[q].msg.body.callbacks.data == Some(c.invocation.fn)
    ensures forall r :: q < r < c.at ==> !ts[r].msg.body.Update?
  {
    var own := ts[c.since..c.at];
    var p := InstalledByLast(own);
    q := c.since + p;
    forall r | q < r < c.at
      ensures !ts[r].msg.body.Update?
    {
      assert own[r - c.since] == ts[r];
    }
  }

  /** Messages between two taken ones were taken in between or dropped. */
  lemma NoneBetween(s: State, q: int, at: int, v: int)
    requires HistoryInv(s) && 0 <= q < at < |s.taken|
    requires s.taken[q].index < v < s.taken[at].index && v !in s.dropped
    ensures exists r :: q < r < at && s.taken[r].index == v && s.taken[r].msg == s.pushed[v]
  {
    assert WasTaken(s.taken, v);
    var r :| 0 <= r < |s.taken| && s.taken[r].index == v;
    assert r == q || r < q || q < r;
    assert r == at || r < at || at < r;
  }

  /**
   Each call goes through the pointers of the last Update enqueued before its message, apart from
   Updates that a Clear dropped.
   */
  lemma CallUsesLatestSurvivingUpdate(s: State, k: nat) returns (u: int)
    requires Reachable(s) && k < |s.calls|
    ensures 0 <= s.calls[k].at < |s.taken| && 0 <= u < Origin(s, s.calls[k]) < |s.pushed|
    ensures s.pushed[u].body.Update? && u !in s.dropped
    ensures s.calls[k].invocation.work.NotifyMessage? ==> s.pushed[u].body.callbacks.notify == Some(s.calls[k].invocation.fn)
    ensures s.calls[k].invocation.work.DataMessage? ==> s.pushed[u].body.callbacks.data == Some(s.calls[k].invocation.fn)
    ensures forall v :: u < v < Origin(s, s.calls[k]) && s.pushed[v].body.Update? ==> v in s.dropped
  {
    ReachableInv(s);
    var c := s.calls[k];
    assert Justified(s.taken, c);
    var q := UpdateBefore(s.taken, c);
    u := s.taken[q].index;
    forall v | u < v < Origin(s, c) && s.pushed[v].body.Update?
      ensures v in s.dropped
    {
      if v !in s.dropped { NoneBetween(s, q, c.at, v); }
    }
  }

  // -------------------------------------------------------------------------------------
  // Ownership of messages.

  ghost predicate WithProducer(s: State, x: nat) { exists t :: Carries(s.threads, t, x) }
  ghost predicate InQueue(s: State, x: nat) { exists i :: Enqueued(s.pushed, i, x) && Head(s) <= i }
  predicate WithWorker(s: State, x: nat) { Hand(s.worker).Some? && Hand(s.worker).value.serial == x }
  predicate IsFreed(s: State, x: nat) { x in s.freed }

  /** A message's place is unique, and no message is deleted twice. */
  lemma OneOwner(s: State, x: nat)
    requires Reachable(s) && x < s.born
    ensures WithProducer(s, x) || InQueue(s, x) || WithWorker(s, x) || IsFreed(s, x)
    ensures !(WithProducer(s, x) && (InQueue(s, x) || WithWorker(s, x) || IsFreed(s, x)))
    ensures !(InQueue(s, x) && (WithWorker(s, x) || IsFreed(s, x)))
    ensures !(WithWorker(s, x) && IsFreed(s, x))
    ensures forall t, u :: Carries(s.threads, t, x) && Carries(s.threads, u, x) ==> t == u
    ensures forall i, j :: 0 <= i < j < |s.queue| ==> !(s.queue[i].serial == s.queue[j].serial)
    ensures forall i, j :: 0 <= i < j < |s.freed| ==> s.freed[i] != s.freed[j]
  {
    ReachableInv(s);
    assert IsOwned(s.threads, s.pushed, x);
    if Hand(s.worker).Some? {
      assert Enqueued(s.pushed, HandIndex(s), Hand(s.worker).value.serial);
    }
    if x in s.freed {
      assert FreedFrom(s.pushed, Head(s), x);
    }
    if i :| Enqueued(s.pushed, i, x) {
      assert i < Head(s) ==> (x in s.freed <==> i != HandIndex(s));
    }
  }

  // -------------------------------------------------------------------------------------
  // What a Clear and a raised BlockCbs achieve.

  /** s' is later than s: records only grow, and what is new concerns what was not yet handled. */
  ghost predicate Later(s: State, s': State) {
    && s.pushed <= s'.pushed && s.taken <= s'.taken && s.calls <= s'.calls && s.dropped <= s'.dropped
    && Head(s) <= Head(s') && Dispatched(s) <= Dispatched(s')
    && (forall p :: |s.taken| <= p < |s'.taken| ==> Head(s) <= s'.taken[p].index)
    && (forall k :: |s.calls| <= k < |s'.calls| ==> Dispatched(s) <= s'.calls[k].at)
  }

  lemma LaterStep(s: State, a: Step)
    requires Inv(s) && Enabled(s, a)
    ensures Later(s, Apply(s, a))
  {
    hide Do, Advance;
    match a
    case ByThread(t, act) => DoFrame(s, t, act);
    case ByWorker(w) => AdvanceFrame(s, w);
  }

  lemma LaterTransitive(a: State, b: State, c: State)
    requires Later(a, b) && Later(b, c)
    ensures Later(a, c)
  {
    forall p | |a.taken| <= p < |c.taken|
      ensures Head(a) <= c.taken[p].index
    {
      if p < |b.taken| { assert c.taken[p] == b.taken[p]; }
    }
    forall k | |a.calls| <= k < |c.calls|
      ensures Dispatched(a) <= c.calls[k].at
    {
      if k < |b.calls| { assert c.calls[k] == b.calls[k]; }
    }
  }

  lemma {:induction false} LaterRun(s: State, run: seq<Step>)
    requires Inv(s) && Runnable(s, run)
    ensures Later(s, Run(s, run))
    decreases |run|
  {
    hide Do, Advance;
    if run != [] {
      var s1 := Apply(s, run[0]);
      StepInv(s, run[0]);
      LaterStep(s, run[0]);
      LaterRun(s1, run[1..]);
      LaterTransitive(s, s1, Run(s1, run[1..]));
    }
  }

  /** The call is for a message that was still to come or in the queue of s, or in its worker's hand. */
  predicate NewOrInHand(s: State, s': State, c: Call) {
    && 0 <= c.at < |s'.taken|
    && (Origin(s', c) >= Head(s) || (Undispatched(s.worker) && Origin(s', c) == HandIndex(s)))
  }

  lemma NewCallIsNew(s: State, s': State, c: Call)
    requires s.taken <= s'.taken && Justified(s'.taken, c) && Dispatched(s) <= c.at
    requires Hand(s.worker).Some? ==> s.taken != []
    requires forall p :: |s.taken| <= p < |s'.taken| ==> Head(s) <= s'.taken[p].index
    ensures NewOrInHand(s, s', c)
  {
    if c.at < |s.taken| { assert s'.taken[c.at] == s.taken[c.at]; }
  }

  /**
   What is executed in any continuation was queued, was enqueued later, or is the one message the
   worker had dequeued and not yet dispatched.  Once the queue has been cleared, nothing enqueued
   before is left but that one.
   */
  lemma NothingClearedIsExecuted(s: State, run: seq<Step>)
    requires Reachable(s) && Runnable(s, run)
    ensures var s' := Run(s, run);
      s.calls <= s'.calls && forall k :: |s.calls| <= k < |s'.calls| ==> NewOrInHand(s, s', s'.calls[k])
    ensures s.queue == [] ==> Head(s) == |s.pushed|
  {
    hide Run, Runnable, Justified, NewOrInHand;
    ReachableInv(s);
    LaterRun(s, run);
    RunInv(s, run);
    var s' := Run(s, run);
    assert CallInv(s') && Later(s, s') && HistoryInv(s);
    forall k | |s.calls| <= k < |s'.calls|
      ensures NewOrInHand(s, s', s'.calls[k])
    {
      NewCallIsNew(s, s', s'.calls[k]);
    }
  }

  /** A wrapper call past its BlockCbs check that has not enqueued its message. */
  predicate PastCheck(pc: Pc) {
    pc.Passed? || ((pc.WantPush? || pc.Pushing?) && pc.msg.body.Execute?)
  }

  function InFlight(threads: seq<Pc>): nat {
    if threads == [] then 0
    else InFlight(threads[..|threads| - 1]) + if PastCheck(threads[|threads| - 1]) then 1 else 0
  }

  /** Callbacks among the messages. */
  function Executes(msgs: seq<ThreadMsg>): nat {
    if msgs == [] then 0
    else Executes(msgs[..|msgs| - 1]) + if msgs[|msgs| - 1].body.Execute? then 1 else 0
  }

  lemma {:induction false} InFlightUpdate(threads: seq<Pc>, t: nat, pc: Pc)
    requires t < |threads|
    ensures InFlight(threads[t := pc]) + (if PastCheck(threads[t]) then 1 else 0)
         == InFlight(threads) + (if PastCheck(pc) then 1 else 0)
    decreases |threads|
  {
    var n := |threads| - 1;
    if t < n {
      assert threads[t := pc][..n] == threads[..n][t := pc];
      InFlightUpdate(threads[..n], t, pc);
    } else {
      assert threads[t := pc][..n] == threads[..n];
    }
  }

  lemma ExecutesPush(msgs: seq<ThreadMsg>, m: ThreadMsg)
    ensures Executes(msgs + [m]) == Executes(msgs) + (if m.body.Execute? then 1 else 0)
  {
    assert (msgs + [m])[..|msgs|] == msgs;
  }

  /** BlockCbs is 1 in every state that `run` visits from `s`, including the first and the last. */
  predicate BlockedThroughout(s: State, run: seq<Step>)
    requires Runnable(s, run)
    decreases |run|
  {
    s.blocked && (run == [] || BlockedThroughout(Apply(s, run[0]), run[1..]))
  }

  lemma BlockedStep(s: State, a: Step)
    requires Enabled(s, a) && s.blocked
    ensures Executes(Apply(s, a).pushed) + InFlight(Apply(s, a).threads) <= Executes(s.pushed) + InFlight(s.threads)
  {
    match a
    case ByThread(t, act) =>
      var s' := Do(s, t, act);
      DoCarried(s, t, act);
      InFlightUpdate(s.threads, t, s'.threads[t]);
      if act.Push? { ExecutesPush(s.pushed, s.threads[t].msg); }
    case ByWorker(w) => AdvanceFrame(s, w);
  }

  /** While BlockCbs stays 1, at most the wrapper calls already past their check enqueue a callback. */
  lemma {:induction false} BlockedStretch(s: State, run: seq<Step>)
    requires Runnable(s, run) && BlockedThroughout(s, run)
    ensures Executes(Run(s, run).pushed) + InFlight(Run(s, run).threads) <= Executes(s.pushed) + InFlight(s.threads)
    decreases |run|
  {
    hide Do, Advance;
    if run != [] {
      BlockedStep(s, run[0]);
      BlockedStretch(Apply(s, run[0]), run[1..]);
    }
  }

  /** Distinct places of callbacks at or after `lo` are no more than the callbacks pushed there. */
  lemma {:induction false} DistinctExecutes(pushed: seq<ThreadMsg>, lo: nat, places: seq<int>)
    requires lo <= |pushed|
    requires forall k :: 0 <= k < |places| ==> lo <= places[k] < |pushed| && pushed[places[k]].body.Execute?
    requires forall j, k :: 0 <= j < k < |places| ==> places[j] < places[k]
    ensures |places| + Executes(pushed[..lo]) <= Executes(pushed)
    decreases |pushed|
  {
    if lo == |pushed| {
      assert pushed[..lo] == pushed;
    } else {
      var n := |pushed| - 1;
      assert pushed[..n][..lo] == pushed[..lo];
      if places != [] && places[|places| - 1] == n {
        DistinctExecutes(pushed[..n], lo, places[..|places| - 1]);
      } else {
        DistinctExecutes(pushed[..n], lo, places);
      }
    }
  }

  lemma DistinctExecutesButOne(pushed: seq<ThreadMsg>, lo: nat, places: seq<int>, spared: bool, hand: int)
    requires lo <= |pushed|
    requires forall k :: 0 <= k < |places| ==> 0 <= places[k] < |pushed| && pushed[places[k]].body.Execute?
    requires forall k :: 0 <= k < |places| ==> lo <= places[k] || (spared && places[k] == hand)
    requires forall j, k :: 0 <= j < k < |places| ==> places[j] < places[k]
    ensures |places| + Executes(pushed[..lo]) <= (if spared then 1 else 0) + Executes(pushed)
  {
    if places != [] && places[0] < lo {
      DistinctExecutes(pushed, lo, places[1..]);
    } else {
      DistinctExecutes(pushed, lo, places);
    }
  }

  function Origins(s: State, from: nat): (r: seq<int>)
    requires forall k :: from <= k < |s.calls| ==> 0 <= s.calls[k].at < |s.taken|
    requires from <= |s.calls|
    ensures |r| == |s.calls| - from
    ensures forall i :: 0 <= i < |r| ==> r[i] == Origin(s, s.calls[from + i])
  {
    seq(|s.calls| - from, i requires 0 <= i < |s.calls| - from => Origin(s, s.calls[from + i]))
  }

  lemma {:induction false} ExecutesConcat(a: seq<ThreadMsg>, b: seq<ThreadMsg>)
    ensures Executes(a + b) == Executes(a) + Executes(b)
    decreases |b|
  {
    if b == [] {
      assert a + b == a;
    } else {
      assert (a + b)[..|a + b| - 1] == a + b[..|b| - 1];
      ExecutesConcat(a, b[..|b| - 1]);
    }
  }

  /** Calls that are new or for the message in hand are bounded by what was queued or enqueued since. */
  lemma CountNewCalls(s: State, s': State)
    requires HistoryInv(s) && HistoryInv(s') && CallInv(s') && s.pushed <= s'.pushed && |s.calls| <= |s'.calls|
    requires forall k :: |s.calls| <= k < |s'.calls| ==> NewOrInHand(s, s', s'.calls[k])
    ensures |s'.calls| + Executes(s.pushed)
         <= |s.calls| + (if Undispatched(s.worker) then 1 else 0) + Executes(s.queue) + Executes(s'.pushed)
  {
    var n := |s.calls|;
    var places := Origins(s', n);
    forall i | 0 <= i < |places|
      ensures 0 <= places[i] < |s'.pushed| && s'.pushed[places[i]].body.Execute?
      ensures Head(s) <= places[i] || (Undispatched(s.worker) && places[i] == HandIndex(s))
    {
      assert Justified(s'.taken, s'.calls[n + i]) && NewOrInHand(s, s', s'.calls[n + i]);
    }
    forall i, j | 0 <= i < j < |places|
      ensures places[i] < places[j]
    {
      assert s'.calls[n + i].at < s'.calls[n + j].at;
    }
    assert s'.pushed[..Head(s)] == s.pushed[..Head(s)] && s.pushed == s.pushed[..Head(s)] + s.queue;
    ExecutesConcat(s.pushed[..Head(s)], s.queue);
    DistinctExecutesButOne(s'.pushed, Head(s), places, Undispatched(s.worker), HandIndex(s));
  }

  /**
   The purpose of blocking in stop_preview and cancel_auto_focus: for as long as BlockCbs stays 1, the
   user sees at most one callback the worker had already dequeued, those still queued, and one for each
   wrapper call that was already past its check.  After a Clear nothing is queued.
   */
  lemma FewCallbacksWhileBlocked(s: State, run: seq<Step>)
    requires Reachable(s) && Runnable(s, run) && BlockedThroughout(s, run)
    ensures |Run(s, run).calls|
         <= |s.calls| + (if Undispatched(s.worker) then 1 else 0) + Executes(s.queue) + InFlight(s.threads)
    ensures s.queue == [] ==> Executes(s.queue) == 0
  {
    ReachableInv(s);
    NothingClearedIsExecuted(s, run);
    LaterRun(s, run);
    RunInv(s, run);
    BlockedStretch(s, run);
    CountNewCalls(s, Run(s, run));
  }
}
