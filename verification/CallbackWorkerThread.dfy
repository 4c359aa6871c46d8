/**
 The message queue of the camera callback worker (camera/CallbackWorkerThread.cpp).

 The class below holds the fields that the source mutates; each of its methods is the body
 of one critical section or of one arm of the worker's switch.  How those bodies interleave
 is the subject of CameraProtocol.
 */
module CallbackWorker {
  import opened Options

  /** Callbacks this many milliseconds old are dropped instead of executed. */
  const STALE_MS := 5

  /** Pointers to user functions; NULL is None. */
  datatype CallbackData = CallbackData(notify: Option<nat>, data: Option<nat>)

  const NO_CALLBACKS := CallbackData(None, None)

  /** The two kinds of message the wrappers post, with the arguments they carry. */
  datatype WorkerMessage =
    | NotifyMessage(msgType: int, ext1: int, ext2: int, user: nat)
    | DataMessage(msgType: int, data: nat, index: nat, metadata: nat, user: nat)

  datatype Body = Execute(work: WorkerMessage) | Update(callbacks: CallbackData) | Exit

  /** `serial` is the identity of the allocated object. */
  datatype ThreadMsg = ThreadMsg(serial: nat, body: Body, callerTS: int)

  /** A user function called with the arguments of a message. */
  datatype Invocation = Invocation(fn: nat, work: WorkerMessage)

  function HandlerFor(h: CallbackData, w: WorkerMessage): Option<nat> {
    match w
    case NotifyMessage(_, _, _, _) => h.notify
    case DataMessage(_, _, _, _, _) => h.data
  }

  /** The user function the worker calls for `w`, if any, when the message is `age` old. */
  function Chosen(h: CallbackData, w: WorkerMessage, age: int): Option<nat> {
    if age < STALE_MS then HandlerFor(h, w) else None
  }

  /** The function pointers the worker holds after handling `b`. */
  function Installed(h: CallbackData, b: Body): CallbackData {
    if b.Update? then b.callbacks else h
  }

  /** The call made for one message, if any. */
  function Made(h: CallbackData, m: ThreadMsg, now: int): seq<Invocation> {
    if m.body.Execute? && Chosen(h, m.body.work, now - m.callerTS).Some?
    then [Invocation(Chosen(h, m.body.work, now - m.callerTS).value, m.body.work)] else []
  }

  /** The callbacks made for a queue handled from the front until it is empty or an Exit is met. */
  function Delivered(h: CallbackData, q: seq<ThreadMsg>, clock: nat -> int, tick: nat): seq<Invocation>
    decreases |q|
  {
    if q == [] || q[0].body.Exit? then []
    else Made(h, q[0], clock(tick)) + Delivered(Installed(h, q[0].body), q[1..], clock, tick + 1)
  }

  lemma DeliveredNext(h: CallbackData, q: seq<ThreadMsg>, clock: nat -> int, tick: nat)
    requires q != []
    ensures Delivered(h, q, clock, tick) ==
      if q[0].body.Exit? then []
      else Made(h, q[0], clock(tick)) + Delivered(Installed(h, q[0].body), q[1..], clock, tick + 1)
  {
  }

  predicate HasExit(q: seq<ThreadMsg>) { exists m :: m in q && m.body.Exit? }

  lemma HasExitNext(q: seq<ThreadMsg>)
    requires q != []
    ensures HasExit(q) <==> q[0].body.Exit? || HasExit(q[1..])
  {
    assert forall m :: m in q <==> m == q[0] || m in q[1..];
  }

  lemma NothingDelivered(h: CallbackData, clock: nat -> int, tick: nat)
    ensures Delivered(h, [], clock, tick) == [] && !HasExit([])
  {
  }

  class CallbackWorkerThread {
    var mQueue: seq<ThreadMsg>
    var userCallbacks: CallbackData
    ghost var freed: seq<ThreadMsg>

    constructor ()
      ensures mQueue == [] && freed == [] && userCallbacks == NO_CALLBACKS
    {
      mQueue, freed, userCallbacks := [], [], NO_CALLBACKS;
    }

    /** AddCallback, SetCallbacks and ExitThread all enqueue this way. */
    method Push(msg: ThreadMsg)
      modifies this`mQueue
      ensures mQueue == old(mQueue) + [msg]
    {
      mQueue := mQueue + [msg];
    }

    /** Drops every message, whatever its kind. */
    method ClearCallbacks()
      modifies this`mQueue, this`freed
      ensures mQueue == [] && freed == old(freed) + old(mQueue)
    {
      while mQueue != []
        invariant freed + mQueue == old(freed) + old(mQueue)
        decreases |mQueue|
      {
        var msg := mQueue[0];
        assert mQueue == [msg] + mQueue[1..];
        mQueue := mQueue[1..];
        freed := freed + [msg];
      }
    }

    method TakeFront() returns (msg: ThreadMsg)
      requires mQueue != []
      modifies this`mQueue
      ensures [msg] + mQueue == old(mQueue)
    {
      msg := mQueue[0];
      mQueue := mQueue[1..];
    }

    /** One pass through the switch for a message that is not an Exit. */
    method Handle(msg: ThreadMsg, now: int) returns (called: Option<Invocation>)
      requires !msg.body.Exit?
      modifies this`userCallbacks, this`freed
      ensures userCallbacks == Installed(old(userCallbacks), msg.body)
      ensures freed == old(freed) + [msg]
      ensures (if called.None? then [] else [called.value]) == Made(old(userCallbacks), msg, now)
      ensures called.Some? <==>
        && msg.body.Execute? && now - msg.callerTS < 5
        && (if msg.body.work.NotifyMessage? then old(userCallbacks).notify else old(userCallbacks).data).Some?
      ensures called.Some? ==> called.value.work == msg.body.work
      ensures called.Some? ==>
        Some(called.value.fn) == if msg.body.work.NotifyMessage? then old(userCallbacks).notify else old(userCallbacks).data
    {
      called := None;
      match msg.body {
        case Execute(work) =>
          if now - msg.callerTS < STALE_MS {
            match work {
              case NotifyMessage(_, _, _, _) =>
                if userCallbacks.notify.Some? {
                  called := Some(Invocation(userCallbacks.notify.value, work));
                }
              case DataMessage(_, _, _, _, _) =>
                if userCallbacks.data.Some? {
                  called := Some(Invocation(userCallbacks.data.value, work));
                }
            }
          }
        case Update(callbacks) =>
          userCallbacks := callbacks;
      }
      freed := freed + [msg];
    }

    /**
     The worker loop with no producer running: it stops at an Exit, after draining the queue,
     or when it would go to sleep.  `clock` gives the time read at each message.
     */
    method Process(clock: nat -> int) returns (calls: seq<Invocation>, exited: bool)
      modifies this
      ensures calls == Delivered(old(userCallbacks), old(mQueue), clock, 0)
      ensures exited <==> HasExit(old(mQueue))
      ensures mQueue == [] && freed == old(freed) + old(mQueue)
    {
      hide Delivered, Made, HasExit, Installed, Chosen;
      calls, exited := [], false;
      var tick := 0;
      ghost var given, due := freed + mQueue, Delivered(userCallbacks, mQueue, clock, 0);
      while mQueue != []
        invariant freed + mQueue == given
        invariant calls + Delivered(userCallbacks, mQueue, clock, tick) == due
        invariant !exited
        invariant HasExit(old(mQueue)) <==> HasExit(mQueue)
        decreases |mQueue|
      {
        ghost var before := mQueue;
        var msg := TakeFront();
        assert before[0] == msg && before[1..] == mQueue && given == (freed + [msg]) + mQueue;
        DeliveredNext(userCallbacks, before, clock, tick);
        HasExitNext(before);
        if msg.body.Exit? {
          freed := freed + [msg];
          ClearCallbacks();
          exited := true;
          return;
        }
        var called := Handle(msg, clock(tick));
        var made := if called.None? then [] else [called.value];
        ghost var rest := Delivered(userCallbacks, mQueue, clock, tick + 1);
        assert calls + (made + rest) == (calls + made) + rest;
        calls := calls + made;
        tick := tick + 1;
      }
      NothingDelivered(userCallbacks, clock, tick);
    }
  }
}
