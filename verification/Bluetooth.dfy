/**
 The Bluetooth vendor interface (hardware/bluetooth/vendor_interface.cc): the low-power wake line with
 its watchdog timer, and the interception of the events that answer the vendor library's own commands.

 The fd watcher is a timer that may fire any number of times while its period is positive.
 */
module Bluetooth {
  import opened Bytes
  import opened Options

  /** HCI_Command_Complete, section 7.7.14 of the Bluetooth Core Specification, Vol 4 Part E. */
  const COMMAND_COMPLETE: byte := 0x0E
  const OPCODE_OFFSET := 3

  /** What a fired timer runs: the low-power timeout, or the complaint about a zero timeout. */
  datatype TimerCallback = LowPowerTimeout | ZeroTimeout

  datatype Timer = Timer(ms: nat, callback: TimerCallback)

  /** What the outside sees: wake operations, packets handed to the transport, and the complaint. */
  datatype Act = Assert | Deassert | HciSend(data: seq<byte>) | Complain

  /** A command of the vendor library with the callback for its answer (NULL is None). */
  datatype Command = Command(opcode: nat, callback: Option<nat>, data: seq<byte>)

  /** Registrations and arrivals in order; `to` is the index of the registration served, None the client. */
  datatype Entry = Registered(command: Command) | Arrived(packet: seq<byte>, to: Option<nat>)

  datatype State = State(
    open: bool,
    wakeDeasserted: bool,       // lpm_wake_deasserted
    timeoutMs: nat,             // lpm_timeout_ms
    recent: bool,               // recent_activity_flag
    timer: Timer,
    pending: Option<nat>,       // internal_command.cb
    opcode: nat,                // internal_command.opcode
    acts: seq<Act>,
    log: seq<Entry>)

  datatype Event =
    | Opened
    | Closed
    | Sent(data: seq<byte>)
    | Transmitted(command: Command)
    | TimeoutRead(ms: nat)                                  // OnFirmwareConfigured reads lpm_timeout_ms
    | WatchdogStarted                                       // and then arms the timer
    | TimedOut
    | Incoming(packet: seq<byte>, replies: seq<Command>)    // replies: commands sent by the internal callback

  const START := State(false, false, 0, false, Timer(0, ZeroTimeout), None, 0, [], [])

  /** hidl_vec is indexed without a check, so an event must be long enough for what is read of it. */
  predicate Readable(packet: seq<byte>) {
    |packet| > 0 && (packet[0] == COMMAND_COMPLETE ==> |packet| > OPCODE_OFFSET + 1)
  }

  /** internal_command_event_match, on the events it can read. */
  predicate Answers(packet: seq<byte>, opcode: nat) {
    |packet| > OPCODE_OFFSET + 1 && packet[0] == COMMAND_COMPLETE &&
    packet[OPCODE_OFFSET] as int + 256 * packet[OPCODE_OFFSET + 1] as int == opcode
  }

  /** Whether the pending internal callback takes the event. */
  predicate Intercepts(s: State, packet: seq<byte>) {
    s.pending.Some? && Answers(packet, s.opcode)
  }

  predicate Possible(s: State, e: Event) {
    match e
    case Opened => !s.open
    case TimedOut => s.open && s.timer.ms > 0
    case Incoming(packet, replies) =>
      s.open && (s.pending.Some? ==> Readable(packet)) && (replies == [] || Intercepts(s, packet))
    case _ => s.open
  }

  function SendOf(s: State, data: seq<byte>): State {
    if s.wakeDeasserted
    then s.(recent := true, timer := Timer(s.timeoutMs, LowPowerTimeout), wakeDeasserted := false,
            acts := s.acts + [Assert, HciSend(data)])
    else s.(recent := true, acts := s.acts + [HciSend(data)])
  }

  function TransmitOf(s: State, c: Command): State {
    SendOf(s.(pending := c.callback, opcode := c.opcode, log := s.log + [Registered(c)]), c.data)
  }

  function TransmitAll(s: State, cs: seq<Command>): State
    decreases |cs|
  {
    if cs == [] then s else TransmitAll(TransmitOf(s, cs[0]), cs[1..])
  }

  function TimeoutOf(s: State): State {
    if s.timer.callback == ZeroTimeout then s.(acts := s.acts + [Complain])
    else if !s.recent
    then s.(recent := false, wakeDeasserted := true, timer := Timer(0, ZeroTimeout), acts := s.acts + [Deassert])
    else s.(recent := false)
  }

  /** Index of the last registration; -1 if there is none. */
  function Latest(log: seq<Entry>): (r: int)
    ensures -1 <= r < |log| && (r >= 0 ==> log[r].Registered?)
    ensures forall k :: r < k < |log| ==> !log[k].Registered?
  {
    if log == [] then -1 else if log[|log| - 1].Registered? then |log| - 1 else Latest(log[..|log| - 1])
  }

  function IncomingOf(s: State, packet: seq<byte>, replies: seq<Command>): State {
    if Intercepts(s, packet)
    then
      var r := Latest(s.log);
      TransmitAll(s.(pending := None, log := s.log + [Arrived(packet, if r < 0 then None else Some(r))]), replies)
    else s.(log := s.log + [Arrived(packet, None)])
  }

  function Step(s: State, e: Event): State
    requires Possible(s, e)
  {
    match e
    case Opened => s.(open := true, wakeDeasserted := true, timer := Timer(0, ZeroTimeout))
    case Closed => s.(open := false, timer := Timer(0, ZeroTimeout))
    case Sent(data) => SendOf(s, data)
    case Transmitted(c) => TransmitOf(s, c)
    case TimeoutRead(ms) => s.(timeoutMs := ms)
    case WatchdogStarted => s.(timer := Timer(s.timeoutMs, LowPowerTimeout))
    case TimedOut => TimeoutOf(s)
    case Incoming(packet, replies) => IncomingOf(s, packet, replies)
  }

  /** The object and the globals of the file; each method is one event. */
  class VendorInterface {
    var open: bool
    var wakeDeasserted: bool
    var timeoutMs: nat
    var recent: bool
    var timer: Timer
    var pending: Option<nat>
    var opcode: nat
    ghost var acts: seq<Act>
    ghost var log: seq<Entry>

    ghost function View(): State
      reads this
    {
      State(open, wakeDeasserted, timeoutMs, recent, timer, pending, opcode, acts, log)
    }

    constructor ()
      ensures View() == START
    {
      open, wakeDeasserted, timeoutMs, recent := false, false, 0, false;
      timer, pending, opcode := Timer(0, ZeroTimeout), None, 0;
      acts, log := [], [];
    }

    method Open()
      requires Possible(View(), Opened)
      modifies this
      ensures View() == Step(old(View()), Opened)
    {
      open := true;
      timer := Timer(0, ZeroTimeout);
      wakeDeasserted := true;
    }

    method Send(data: seq<byte>)
      requires open
      modifies this
      ensures View() == SendOf(old(View()), data)
    {
      recent := true;
      if wakeDeasserted {
        timer := Timer(timeoutMs, LowPowerTimeout);
        wakeDeasserted := false;
        acts := acts + [Assert];
      }
      ghost var before := old(acts);
      acts := acts + [HciSend(data)];
      assert before + [Assert] + [HciSend(data)] == before + [Assert, HciSend(data)];
    }

    method OnTimeout()
      requires Possible(View(), TimedOut)
      modifies this
      ensures View() == Step(old(View()), TimedOut)
    {
      if timer.callback == ZeroTimeout {
        acts := acts + [Complain];
        return;
      }
      if !recent {
        wakeDeasserted := true;
        acts := acts + [Deassert];
        timer := Timer(0, ZeroTimeout);
      }
      recent := false;
    }

    method Transmit(c: Command)
      requires open
      modifies this
      ensures View() == TransmitOf(old(View()), c)
    {
      pending := c.callback;
      opcode := c.opcode;
      log := log + [Registered(c)];
      Send(c.data);
    }

    /** The pending callback is forgotten before it runs, because it may send and register more commands. */
    method HandleIncomingEvent(packet: seq<byte>, replies: seq<Command>)
      requires Possible(View(), Incoming(packet, replies))
      modifies this
      ensures View() == Step(old(View()), Incoming(packet, replies))
      ensures !(old(pending).Some? && IsCommandComplete(packet, old(opcode))) ==>
        pending == old(pending) && log == old(log) + [Arrived(packet, None)]
      ensures old(pending).Some? && IsCommandComplete(packet, old(opcode)) && replies == [] ==> pending == None
    {
      AnswersAreCommandComplete(packet, opcode);
      if pending.Some? && Answers(packet, opcode) {
        pending := None;
        log := log + [Arrived(packet, if Latest(log) < 0 then None else Some(Latest(log)))];
        ghost var called := View();
        var i := 0;
        while i < |replies|
          invariant 0 <= i <= |replies| && open
          invariant TransmitAll(View(), replies[i..]) == TransmitAll(called, replies)
        {
          assert replies[i..][1..] == replies[i + 1..];
          Transmit(replies[i]);
          i := i + 1;
        }
      } else {
        log := log + [Arrived(packet, None)];
      }
    }
  }

  // -------------------------------------------------------------------------------------
  // Runs.

  predicate Runnable(s: State, h: seq<Event>)
    decreases |h|, 0
  {
    h == [] || (Runnable(s, h[..|h| - 1]) && Possible(Run(s, h[..|h| - 1]), h[|h| - 1]))
  }

  function Run(s: State, h: seq<Event>): State
    requires Runnable(s, h)
    decreases |h|, 1
  {
    if h == [] then s else Step(Run(s, h[..|h| - 1]), h[|h| - 1])
  }

  /** Events in which something goes out through Send. */
  predicate IsSend(e: Event) { e.Sent? || e.Transmitted? || (e.Incoming? && e.replies != []) }

  lemma {:induction false} TransmitAllEffect(s: State, cs: seq<Command>)
    ensures var s' := TransmitAll(s, cs);
      && s'.open == s.open && s'.timeoutMs == s.timeoutMs
      && (cs == [] ==> s' == s)
      && (cs != [] ==>
            s'.recent && !s'.wakeDeasserted && s'.pending == cs[|cs| - 1].callback && s'.opcode == cs[|cs| - 1].opcode &&
            s'.timer == (if s.wakeDeasserted then Timer(s.timeoutMs, LowPowerTimeout) else s.timer))
    decreases |cs|
  {
    if cs != [] {
      TransmitAllEffect(TransmitOf(s, cs[0]), cs[1..]);
      assert cs[1..] != [] ==> cs[1..][|cs| - 2] == cs[|cs| - 1];
    }
  }

  /** How each event moves the wake line, the activity flag and the timer. */
  lemma StepEffect(s: State, e: Event)
    requires Possible(s, e)
    ensures var s' := Step(s, e);
      if IsSend(e) then
        && s'.open && s'.recent && !s'.wakeDeasserted && s'.timeoutMs == s.timeoutMs
        && s'.timer == (if s.wakeDeasserted then Timer(s.timeoutMs, LowPowerTimeout) else s.timer)
      else if e.Incoming? then
        s'.open == s.open && s'.recent == s.recent && s'.wakeDeasserted == s.wakeDeasserted && s'.timer == s.timer &&
        s'.timeoutMs == s.timeoutMs && s'.acts == s.acts
      else s' == Step(s, e)
  {
    match e
    case Incoming(packet, replies) =>
      if Intercepts(s, packet) {
        var r := Latest(s.log);
        TransmitAllEffect(s.(pending := None, log := s.log + [Arrived(packet, if r < 0 then None else Some(r))]), replies);
      }
    case _ =>
  }

  // -------------------------------------------------------------------------------------
  // The wake line.

  /** Timeouts since the last send of the history; -1 if nothing was sent. */
  function TimeoutsSinceSend(h: seq<Event>): int {
    if h == [] then -1
    else if IsSend(h[|h| - 1]) then 0
    else
      var n := TimeoutsSinceSend(h[..|h| - 1]);
      if h[|h| - 1] == TimedOut && n >= 0 then n + 1 else n
  }

  /** Something was sent since the interface was last opened. */
  predicate SentSinceOpen(h: seq<Event>) {
    h != [] && (IsSend(h[|h| - 1]) || (!h[|h| - 1].Opened? && SentSinceOpen(h[..|h| - 1])))
  }

  predicate TimerInv(s: State) { s.timer.ms > 0 ==> s.timer.callback == LowPowerTimeout }

  /**
   While open, wake is asserted exactly when something was sent since opening and at most one timeout
   has passed since the last send; the activity flag is up exactly when none has.
   */
  lemma {:induction false} WakeFollowsHistory(h: seq<Event>)
    requires Runnable(START, h)
    ensures var s := Run(START, h);
      && TimerInv(s)
      && (s.recent <==> TimeoutsSinceSend(h) == 0)
      && (s.open ==> (!s.wakeDeasserted <==> SentSinceOpen(h) && TimeoutsSinceSend(h) <= 1))
      && (SentSinceOpen(h) ==> TimeoutsSinceSend(h) >= 0)
    decreases |h|
  {
    if h != [] {
      var front, e := h[..|h| - 1], h[|h| - 1];
      WakeFollowsHistory(front);
      StepEffect(Run(START, front), e);
    }
  }

  /** Two timeouts with nothing sent in between, or since, leave wake deasserted. */
  lemma TwoQuietTimeoutsDeassert(h: seq<Event>)
    requires Runnable(START, h) && Run(START, h).open && TimeoutsSinceSend(h) >= 2
    ensures Run(START, h).wakeDeasserted
  {
    WakeFollowsHistory(h);
  }

  /** A timeout deasserts wake exactly when nothing was sent since the timeout before it, or ever; it never complains. */
  lemma DeassertExactlyWhenQuiet(h: seq<Event>)
    requires Runnable(START, h) && Possible(Run(START, h), TimedOut)
    ensures Step(Run(START, h), TimedOut).acts
         == Run(START, h).acts + if TimeoutsSinceSend(h) == 0 then [] else [Deassert]
  {
    WakeFollowsHistory(h);
  }

  /** The last wake operation before position n. */
  function LastWake(acts: seq<Act>, n: nat): Option<Act>
    requires n <= |acts|
  {
    if n == 0 then None
    else if acts[n - 1].Assert? || acts[n - 1].Deassert? then Some(acts[n - 1])
    else LastWake(acts, n - 1)
  }

  ghost predicate ActsInv(s: State) {
    && (s.open && !s.wakeDeasserted ==> LastWake(s.acts, |s.acts|) == Some(Assert))
    && (forall k :: 0 <= k < |s.acts| && s.acts[k].HciSend? ==> LastWake(s.acts, k) == Some(Assert))
    && (forall k :: 0 <= k < |s.acts| ==> s.acts[k] != Complain)
  }

  lemma {:induction false} LastWakePrefix(a: seq<Act>, b: seq<Act>, n: nat)
    requires n <= |a|
    ensures LastWake(a + b, n) == LastWake(a, n)
  {
    if n > 0 { LastWakePrefix(a, b, n - 1); }
  }

  lemma ActsAppend(s: State, s': State, more: seq<Act>)
    requires ActsInv(s) && s'.acts == s.acts + more
    requires |more| == 0 || (|more| == 1 && more[0] != Complain && (more[0].HciSend? ==> s.open && !s.wakeDeasserted)) ||
      (|more| == 2 && more[0] == Assert && more[1].HciSend?)
    requires s'.open && !s'.wakeDeasserted ==>
      (if |more| == 0 then s.open && !s.wakeDeasserted else more[|more| - 1].HciSend?)
    ensures ActsInv(s')
  {
    forall k | 0 <= k <= |s.acts|
      ensures LastWake(s'.acts, k) == LastWake(s.acts, k)
    {
      LastWakePrefix(s.acts, more, k);
    }
  }

  lemma SendKeepsActs(s: State, data: seq<byte>)
    requires ActsInv(s) && s.open
    ensures ActsInv(SendOf(s, data))
  {
    ActsAppend(s, SendOf(s, data), if s.wakeDeasserted then [Assert, HciSend(data)] else [HciSend(data)]);
  }

  lemma TransmitKeepsActs(s: State, c: Command)
    requires ActsInv(s) && s.open
    ensures ActsInv(TransmitOf(s, c))
  {
    SendKeepsActs(s.(pending := c.callback, opcode := c.opcode, log := s.log + [Registered(c)]), c.data);
  }

  lemma {:induction false} TransmitAllKeepsActs(s: State, cs: seq<Command>)
    requires ActsInv(s) && s.open
    ensures ActsInv(TransmitAll(s, cs))
    decreases |cs|
  {
    if cs != [] {
      TransmitKeepsActs(s, cs[0]);
      TransmitAllKeepsActs(TransmitOf(s, cs[0]), cs[1..]);
    }
  }

  lemma StepKeepsActs(s: State, e: Event)
    requires Possible(s, e) && ActsInv(s) && TimerInv(s)
    ensures ActsInv(Step(s, e))
  {
    match e
    case Sent(data) => SendKeepsActs(s, data);
    case Transmitted(c) => TransmitKeepsActs(s, c);
    case Incoming(packet, replies) =>
      if Intercepts(s, packet) {
        var r := Latest(s.log);
        TransmitAllKeepsActs(s.(pending := None, log := s.log + [Arrived(packet, if r < 0 then None else Some(r))]), replies);
      }
    case TimedOut => ActsAppend(s, TimeoutOf(s), if s.recent then [] else [Deassert]);
    case _ =>
  }

  /** Whenever a packet goes to the transport, the last wake operation was ASSERT; the zero timeout never fires. */
  lemma {:induction false} SendsAreAwake(h: seq<Event>)
    requires Runnable(START, h)
    ensures ActsInv(Run(START, h))
    decreases |h|
  {
    if h != [] {
      var front := h[..|h| - 1];
      SendsAreAwake(front);
      WakeFollowsHistory(front);
      StepKeepsActs(Run(START, front), h[|h| - 1]);
    }
  }

  predicate Reconfigures(e: Event) { e.Opened? || e.Closed? || e.TimeoutRead? || e.WatchdogStarted? }

  /**
   Once the watchdog has been started with a positive timeout, wake asserted means that the timer is
   armed, so wake cannot stay asserted unattended.
   */
  lemma {:induction false} AwakeMeansArmed(h: seq<Event>, s: State)
    requires s.timeoutMs > 0 && s.timer == Timer(s.timeoutMs, LowPowerTimeout) && Runnable(s, h)
    requires forall i :: 0 <= i < |h| ==> !Reconfigures(h[i])
    ensures var s' := Run(s, h);
      s'.timeoutMs == s.timeoutMs && (!s'.wakeDeasserted ==> s'.timer == Timer(s.timeoutMs, LowPowerTimeout))
    decreases |h|
  {
    if h != [] {
      AwakeMeansArmed(h[..|h| - 1], s);
      StepEffect(Run(s, h[..|h| - 1]), h[|h| - 1]);
    }
  }

  // -------------------------------------------------------------------------------------
  // Who gets an event.

  /** Registration r has been served before position n. */
  predicate Served(log: seq<Entry>, r: int, n: int) {
    exists j :: 0 <= j < n && j < |log| && log[j].Arrived? && log[j].to.Some? && log[j].to.value == r
  }

  /** The registration that an event arriving at position n is for: the latest one, if it waits for an answer. */
  function Waiting(log: seq<Entry>, n: nat): Option<nat>
    requires n <= |log|
  {
    var r := Latest(log[..n]);
    if r < 0 || log[r].command.callback == None || Served(log, r, n) then None else Some(r)
  }

  /** The one recipient of an event: the waiting registration whose opcode it answers, otherwise the client. */
  function Recipient(log: seq<Entry>, n: nat, packet: seq<byte>): Option<nat>
    requires n <= |log|
  {
    var w := Waiting(log, n);
    if w.Some? && log[w.value].Registered? && Answers(packet, log[w.value].command.opcode) then w else None
  }

  /** Every event in the log went to its recipient. */
  ghost predicate RightRecipients(log: seq<Entry>) {
    forall n :: 0 <= n < |log| && log[n].Arrived? ==> log[n].to == Recipient(log, n, log[n].packet)
  }

  /** internal_command holds the waiting registration. */
  predicate PendingIsWaiting(s: State) {
    && (s.pending.Some? <==> Waiting(s.log, |s.log|).Some?)
    && (s.pending.Some? ==> Latest(s.log) >= 0 && s.log[Latest(s.log)].command.callback == s.pending)
    && (Latest(s.log) >= 0 ==> s.log[Latest(s.log)].command.opcode == s.opcode)
  }

  ghost predicate LogInv(s: State) { RightRecipients(s.log) && PendingIsWaiting(s) }

  lemma RightRecipientsAppend(log: seq<Entry>, e: Entry)
    requires RightRecipients(log)
    requires e.Arrived? ==> e.to == Recipient(log, |log|, e.packet)
    ensures RightRecipients(log + [e])
  {
    hide Recipient;
    var log' := log + [e];
    forall n | 0 <= n < |log'| && log'[n].Arrived?
      ensures log'[n].to == Recipient(log', n, log'[n].packet)
    {
      assert n < |log| ==> log'[n] == log[n];
      RecipientPrefix(log, e, n, log'[n].packet);
    }
  }

  lemma RecipientPrefix(log: seq<Entry>, e: Entry, n: nat, packet: seq<byte>)
    requires n <= |log|
    ensures Waiting(log + [e], n) == Waiting(log, n)
    ensures Recipient(log + [e], n, packet) == Recipient(log, n, packet)
  {
    assert (log + [e])[..n] == log[..n];
    var r := Latest(log[..n]);
    assert Served(log + [e], r, n) == Served(log, r, n) by {
      if Served(log, r, n) {
        var j :| 0 <= j < n && j < |log| && log[j].Arrived? && log[j].to.Some? && log[j].to.value == r;
        assert (log + [e])[j] == log[j];
      }
      if Served(log + [e], r, n) {
        var j :| 0 <= j < n && j < |log + [e]| && (log + [e])[j].Arrived? && (log + [e])[j].to.Some? && (log + [e])[j].to.value == r;
        assert (log + [e])[j] == log[j];
      }
    }
  }

  lemma RegisterKeepsLog(s: State, c: Command)
    requires LogInv(s)
    ensures LogInv(TransmitOf(s, c))
  {
    var e := Registered(c);
    var s' := TransmitOf(s, c);
    RightRecipientsAppend(s.log, e);
    assert s'.log[..|s'.log|] == s'.log;
    assert Latest(s'.log) == |s.log|;
    assert !Served(s'.log, |s.log|, |s'.log|) by {
      if Served(s'.log, |s.log|, |s'.log|) { ServedEarlier(s, s'.log, |s.log|); }
    }
  }

  /** Nothing was served before it was registered. */
  lemma ServedEarlier(s: State, log': seq<Entry>, r: int)
    requires LogInv(s) && s.log <= log' && |log'| == |s.log| + 1 && log'[|s.log|].Registered?
    requires Served(log', r, |log'|)
    ensures r < |s.log|
  {
    var j :| 0 <= j < |log'| && log'[j].Arrived? && log'[j].to.Some? && log'[j].to.value == r;
    assert log'[j] == s.log[j];
    assert s.log[j].to == Recipient(s.log, j, s.log[j].packet);
  }

  lemma ServedAfter(log: seq<Entry>, e: Entry, r: int)
    ensures Served(log + [e], r, |log| + 1) <==> Served(log, r, |log|) || (e.Arrived? && e.to.Some? && e.to.value == r)
  {
    var log' := log + [e];
    if Served(log, r, |log|) {
      var j :| 0 <= j < |log| && log[j].Arrived? && log[j].to.Some? && log[j].to.value == r;
      assert log'[j] == log[j];
    }
    assert log'[|log|] == e;
    if Served(log', r, |log'|) {
      var j :| 0 <= j < |log'| && log'[j].Arrived? && log'[j].to.Some? && log'[j].to.value == r;
      assert j < |log| ==> log'[j] == log[j];
    }
  }

  /** An arrival ends the wait of the registration that it serves, and nothing else. */
  lemma WaitingAfterArrival(log: seq<Entry>, packet: seq<byte>, to: Option<nat>)
    requires to.Some? ==> to == Waiting(log, |log|)
    ensures var log' := log + [Arrived(packet, to)];
      && Latest(log') == Latest(log)
      && Waiting(log', |log'|) == if to.Some? then None else Waiting(log, |log|)
  {
    var log' := log + [Arrived(packet, to)];
    assert log'[..|log'|] == log' && log[..|log|] == log && log'[..|log'| - 1] == log;
    ServedAfter(log, Arrived(packet, to), Latest(log));
  }

  lemma ArriveKeepsLog(s: State, packet: seq<byte>)
    requires LogInv(s)
    ensures var to := Recipient(s.log, |s.log|, packet);
      && (Intercepts(s, packet) <==> to.Some?)
      && (to.Some? ==> to == Some(Latest(s.log)))
      && LogInv(s.(pending := if to.Some? then None else s.pending, log := s.log + [Arrived(packet, to)]))
  {
    var to := Recipient(s.log, |s.log|, packet);
    assert s.log[..|s.log|] == s.log;
    RightRecipientsAppend(s.log, Arrived(packet, to));
    PendingAfterArrival(s, packet, to);
  }

  lemma PendingAfterArrival(s: State, packet: seq<byte>, to: Option<nat>)
    requires PendingIsWaiting(s) && (to.Some? ==> to == Waiting(s.log, |s.log|))
    ensures PendingIsWaiting(s.(pending := if to.Some? then None else s.pending, log := s.log + [Arrived(packet, to)]))
  {
    WaitingAfterArrival(s.log, packet, to);
    hide Waiting;
    var r := Latest(s.log);
    assert r >= 0 ==> (s.log + [Arrived(packet, to)])[r] == s.log[r];
  }

  lemma {:induction false} TransmitAllKeepsLog(s: State, cs: seq<Command>)
    requires LogInv(s)
    ensures LogInv(TransmitAll(s, cs))
    decreases |cs|
  {
    if cs != [] {
      RegisterKeepsLog(s, cs[0]);
      TransmitAllKeepsLog(TransmitOf(s, cs[0]), cs[1..]);
    }
  }

  lemma StepKeepsLog(s: State, e: Event)
    requires Possible(s, e) && LogInv(s)
    ensures LogInv(Step(s, e))
  {
    match e
    case Transmitted(c) => RegisterKeepsLog(s, c);
    case Incoming(packet, replies) =>
      ArriveKeepsLog(s, packet);
      if Intercepts(s, packet) {
        var r := Latest(s.log);
        TransmitAllKeepsLog(s.(pending := None, log := s.log + [Arrived(packet, if r < 0 then None else Some(r))]), replies);
      }
    case _ =>
  }

  /**
   Over every run, each incoming event goes to one recipient, namely the latest registration if it has a
   callback, was not served before, and the event is the Command Complete for its opcode; otherwise
   the client.
   */
  lemma {:induction false} EventsReachTheirRecipient(h: seq<Event>)
    requires Runnable(START, h)
    ensures LogInv(Run(START, h))
    decreases |h|
  {
    if h != [] {
      EventsReachTheirRecipient(h[..|h| - 1]);
      StepKeepsLog(Run(START, h[..|h| - 1]), h[|h| - 1]);
    }
  }

  /**
   The event of section 7.7.14: its code, the length of what follows, the number of packets the controller
   takes, the opcode with its low byte first, and the return parameters.
   */
  function CommandComplete(length: byte, packets: byte, opcode: nat, rest: seq<byte>): seq<byte>
    requires opcode < 65536
  {
    [14, length, packets, (opcode % 256) as byte, (opcode / 256) as byte] + rest
  }

  ghost predicate IsCommandComplete(packet: seq<byte>, opcode: nat) {
    opcode < 65536 && exists length, packets, rest :: packet == CommandComplete(length, packets, opcode, rest)
  }

  /** The test on an incoming event, for every opcode that is waited for and every one that is answered. */
  lemma AnswersIff(length: byte, packets: byte, opcode: nat, rest: seq<byte>, waited: nat)
    requires opcode < 65536
    ensures Answers(CommandComplete(length, packets, opcode, rest), waited) <==> waited == opcode
  {
    var p := CommandComplete(length, packets, opcode, rest);
    assert p[OPCODE_OFFSET] as int + 256 * p[OPCODE_OFFSET + 1] as int == opcode;
  }

  /** The events that answer an opcode are its Command Complete events and no others. */
  lemma AnswersAreCommandComplete(packet: seq<byte>, waited: nat)
    ensures Answers(packet, waited) <==> IsCommandComplete(packet, waited)
  {
    if Answers(packet, waited) {
      var rest := packet[5..];
      assert packet == CommandComplete(packet[1], packet[2], waited, rest);
    } else if IsCommandComplete(packet, waited) {
      var length, packets, rest :| packet == CommandComplete(length, packets, waited, rest);
      AnswersIff(length, packets, waited, rest, waited);
    }
  }

  /**
   Over every run: while a callback waits for the answer to its command, the Command Complete event of any
   opcode is taken by it exactly if the opcodes are the same; and no other kind of event ever is.
   */
  lemma TakenIff(h: seq<Event>, length: byte, packets: byte, opcode: nat, rest: seq<byte>, replies: seq<Command>)
    requires Runnable(START, h) && opcode < 65536 && Run(START, h).pending.Some?
    requires Possible(Run(START, h), Incoming(CommandComplete(length, packets, opcode, rest), replies))
    ensures var s, packet := Run(START, h), CommandComplete(length, packets, opcode, rest);
      var s' := Step(s, Incoming(packet, replies));
      && Latest(s.log) >= 0 && |s'.log| > |s.log|
      && s'.log[|s.log|] == Arrived(packet, if opcode == s.opcode then Some(Latest(s.log)) else None)
      && s.log[Latest(s.log)].command.opcode == s.opcode
  {
    EventsReachTheirRecipient(h);
    AnswersIff(length, packets, opcode, rest, Run(START, h).opcode);
    IncomingLogs(Run(START, h), CommandComplete(length, packets, opcode, rest), replies);
  }

  lemma OtherEventsGoToClient(s: State, packet: seq<byte>, replies: seq<Command>)
    requires Possible(s, Incoming(packet, replies)) && packet != [] && packet[0] != 14
    ensures Step(s, Incoming(packet, replies)) == s.(log := s.log + [Arrived(packet, None)])
  {
  }

  lemma IncomingLogs(s: State, packet: seq<byte>, replies: seq<Command>)
    requires Possible(s, Incoming(packet, replies)) && Latest(s.log) >= 0
    ensures var s' := Step(s, Incoming(packet, replies));
      && |s'.log| > |s.log| && s'.log[..|s.log|] == s.log
      && s'.log[|s.log|] == Arrived(packet, if Intercepts(s, packet) then Some(Latest(s.log)) else None)
  {
    if Intercepts(s, packet) {
      var s1 := s.(pending := None, log := s.log + [Arrived(packet, Some(Latest(s.log)))]);
      TransmitAllLogs(s1, replies);
    }
  }

  lemma {:induction false} TransmitAllLogs(s: State, cs: seq<Command>)
    ensures s.log <= TransmitAll(s, cs).log
    decreases |cs|
  {
    if cs != [] { TransmitAllLogs(TransmitOf(s, cs[0]), cs[1..]); }
  }

  /** No registration is served twice, and it is served only by a Command Complete event with its opcode. */
  lemma EachRegistrationFiresOnce(h: seq<Event>, j: nat, k: nat)
    requires Runnable(START, h) && j < k < |Run(START, h).log|
    requires var log := Run(START, h).log; log[j].Arrived? && log[k].Arrived? && log[j].to.Some? && log[k].to.Some?
    ensures var log := Run(START, h).log;
      && log[j].to != log[k].to
      && log[k].to.value < k && log[log[k].to.value].Registered?
      && IsCommandComplete(log[k].packet, log[log[k].to.value].command.opcode)
  {
    hide IsCommandComplete;
    EventsReachTheirRecipient(h);
    var log := Run(START, h).log;
    assert log[k].to == Recipient(log, k, log[k].packet);
    assert Served(log, log[j].to.value, k);
    AnswersAreCommandComplete(log[k].packet, log[log[k].to.value].command.opcode);
  }

  /** A command sent from inside the callback is still pending when the event has been handled. */
  lemma ReplyStaysPending(s: State, packet: seq<byte>, replies: seq<Command>)
    requires Possible(s, Incoming(packet, replies)) && replies != []
    ensures var s' := Step(s, Incoming(packet, replies));
      s'.pending == replies[|replies| - 1].callback && s'.opcode == replies[|replies| - 1].opcode
  {
    var r := Latest(s.log);
    TransmitAllEffect(s.(pending := None, log := s.log + [Arrived(packet, if r < 0 then None else Some(r))]), replies);
  }

  // -------------------------------------------------------------------------------------
  // What goes out.

  /** The packets handed to the transport, in order. */
  function Packets(acts: seq<Act>): seq<seq<byte>> {
    if acts == [] then []
    else Packets(acts[..|acts| - 1]) + if acts[|acts| - 1].HciSend? then [acts[|acts| - 1].data] else []
  }

  function CommandData(cs: seq<Command>): seq<seq<byte>>
    decreases |cs|
  {
    if cs == [] then [] else [cs[0].data] + CommandData(cs[1..])
  }

  /** The data that one event asks to send: its own, or that of the commands sent from the internal callback. */
  function Asked(e: Event): seq<seq<byte>> {
    match e
    case Sent(data) => [data]
    case Transmitted(c) => [c.data]
    case Incoming(_, replies) => CommandData(replies)
    case _ => []
  }

  function AllAsked(h: seq<Event>): seq<seq<byte>> {
    if h == [] then [] else AllAsked(h[..|h| - 1]) + Asked(h[|h| - 1])
  }

  lemma {:induction false} PacketsConcat(a: seq<Act>, b: seq<Act>)
    ensures Packets(a + b) == Packets(a) + Packets(b)
    decreases |b|
  {
    if b == [] {
      assert a + b == a;
    } else {
      assert (a + b)[..|a + b| - 1] == a + b[..|b| - 1];
      PacketsConcat(a, b[..|b| - 1]);
    }
  }

  lemma SendPackets(s: State, data: seq<byte>)
    ensures Packets(SendOf(s, data).acts) == Packets(s.acts) + [data]
  {
    var more := if s.wakeDeasserted then [Assert, HciSend(data)] else [HciSend(data)];
    PacketsConcat(s.acts, more);
    assert [Assert, HciSend(data)][..1] == [Assert] && [HciSend(data)][..0] == [] && [Assert][..0] == [];
    assert Packets([]) == [] && Packets([Assert]) == [];
  }

  lemma {:induction false} TransmitAllPackets(s: State, cs: seq<Command>)
    ensures Packets(TransmitAll(s, cs).acts) == Packets(s.acts) + CommandData(cs)
    decreases |cs|
  {
    if cs != [] {
      var c := cs[0];
      SendPackets(s.(pending := c.callback, opcode := c.opcode, log := s.log + [Registered(c)]), c.data);
      TransmitAllPackets(TransmitOf(s, c), cs[1..]);
    }
  }

  lemma StepPackets(s: State, e: Event)
    requires Possible(s, e)
    ensures Packets(Step(s, e).acts) == Packets(s.acts) + Asked(e)
  {
    match e
    case Sent(data) => SendPackets(s, data);
    case Transmitted(c) => SendPackets(s.(pending := c.callback, opcode := c.opcode, log := s.log + [Registered(c)]), c.data);
    case Incoming(packet, replies) =>
      if Intercepts(s, packet) {
        var r := Latest(s.log);
        TransmitAllPackets(s.(pending := None, log := s.log + [Arrived(packet, if r < 0 then None else Some(r))]), replies);
      }
    case TimedOut =>
      assert [Deassert][..0] == [] && [Complain][..0] == [] && Packets([]) == [];
      PacketsConcat(s.acts, [Deassert]);
      PacketsConcat(s.acts, [Complain]);
    case _ =>
  }

  /** Over every run, the transport gets exactly the data of the sends, transmits and replies, in order. */
  lemma {:induction false} TransportGetsAll(h: seq<Event>)
    requires Runnable(START, h)
    ensures Packets(Run(START, h).acts) == AllAsked(h)
    decreases |h|
  {
    if h != [] {
      TransportGetsAll(h[..|h| - 1]);
      StepPackets(Run(START, h[..|h| - 1]), h[|h| - 1]);
    }
  }

  // -------------------------------------------------------------------------------------
  // From the firmware's configuration on.

  lemma {:induction false} RunOn(s: State, a: seq<Event>, b: seq<Event>)
    requires Runnable(s, a + b)
    ensures Runnable(s, a) && Runnable(Run(s, a), b) && Run(s, a + b) == Run(Run(s, a), b)
    decreases |b|
  {
    if b == [] {
      assert a + b == a;
    } else {
      assert (a + b)[..|a + b| - 1] == a + b[..|b| - 1];
      RunOn(s, a, b[..|b| - 1]);
    }
  }

  /** The timeout that was read stays. */
  lemma {:induction false} TimeoutStays(h: seq<Event>, s: State)
    requires Runnable(s, h) && forall i :: 0 <= i < |h| ==> !Reconfigures(h[i])
    ensures Run(s, h).timeoutMs == s.timeoutMs
    decreases |h|
  {
    if h != [] {
      TimeoutStays(h[..|h| - 1], s);
      StepEffect(Run(s, h[..|h| - 1]), h[|h| - 1]);
    }
  }

  /**
   After OnFirmwareConfigured has read a positive timeout and started the watchdog, whatever is sent or
   received in between and afterwards: wake asserted means that the timer is armed.
   */
  lemma ConfiguredMeansArmed(s: State, ms: nat, between: seq<Event>, rest: seq<Event>)
    requires ms > 0 && Runnable(s, ([TimeoutRead(ms)] + between + [WatchdogStarted]) + rest)
    requires forall i :: 0 <= i < |between| ==> !Reconfigures(between[i])
    requires forall i :: 0 <= i < |rest| ==> !Reconfigures(rest[i])
    ensures var s' := Run(s, ([TimeoutRead(ms)] + between + [WatchdogStarted]) + rest);
      !s'.wakeDeasserted ==> s'.timer == Timer(ms, LowPowerTimeout)
  {
    hide Run, Runnable, Step;
    var start := [TimeoutRead(ms)] + between + [WatchdogStarted];
    RunOn(s, start, rest);
    RunOn(s, [TimeoutRead(ms)] + between, [WatchdogStarted]);
    RunOn(s, [TimeoutRead(ms)], between);
    OneEvent(s, TimeoutRead(ms));
    TimeoutStays(between, Run(s, [TimeoutRead(ms)]));
    var s1 := Run(s, [TimeoutRead(ms)] + between);
    OneEvent(s1, WatchdogStarted);
    WatchdogArms(s1);
    AwakeMeansArmed(rest, Step(s1, WatchdogStarted));
  }

  lemma OneEvent(s: State, e: Event)
    requires Runnable(s, [e])
    ensures Possible(s, e) && Run(s, [e]) == Step(s, e)
    ensures e.TimeoutRead? ==> Run(s, [e]).timeoutMs == e.ms
  {
    assert [e][..0] == [];
  }

  lemma WatchdogArms(s: State)
    requires s.open
    ensures Step(s, WatchdogStarted).timer == Timer(s.timeoutMs, LowPowerTimeout)
    ensures Step(s, WatchdogStarted).timeoutMs == s.timeoutMs
  {
  }
}
