/**
 Framing of property-set requests (tools/resetprop/system_property_set.cpp): a scatter/gather writer
 whose entries point into its own buffer of integers, and the two message formats.
 */
module PropertyFraming {
  import opened Bytes
  import opened Options

  const U32 := 0x1_0000_0000
  const SLOTS := 8                  // kUintBufSize and kIovSize
  const PROP_NAME_MAX := 32
  const PROP_VALUE_MAX := 92
  const PROP_MSG_SETPROP := 1
  const PROP_MSG_SETPROP2 := 0x00020001

  /** An integer as the four bytes it has in memory, least significant first. */
  function Bytes4(n: nat): (bs: seq<byte>)
    requires n < U32
    ensures |bs| == 4
  {
    [(n % 256) as byte, (n / 256 % 256) as byte, (n / 65536 % 256) as byte, (n / 16777216) as byte]
  }

  function Int4(bs: seq<byte>): nat
    requires |bs| == 4
  {
    bs[0] as int + 256 * bs[1] as int + 65536 * bs[2] as int + 16777216 * bs[3] as int
  }

  lemma Int4OfBytes4(n: nat)
    requires n < U32
    ensures Int4(Bytes4(n)) == n
  {
    var a, b, c := n / 256, n / 65536, n / 16777216;
    assert b == a / 256 && c == b / 256;
  }

  /** An iovec entry: the address of a slot of the integer buffer, or of a string, with a length. */
  datatype Entry = Slot(i: nat) | Chars(s: seq<byte>)

  /** The length of a string as the source keeps it, in 32 bits. */
  function Length32(s: seq<byte>): (n: nat)
    ensures n < U32 && n <= |s|
  {
    |s| % U32
  }

  class SocketWriter {
    const iov: array<Entry>
    const uintBuf: array<nat>
    var iovIndex: nat
    var uintBufIndex: nat

    ghost predicate Valid()
      reads this, iov, uintBuf
    {
      && iov.Length == SLOTS && uintBuf.Length == SLOTS && iovIndex <= SLOTS && uintBufIndex <= SLOTS
      && (forall k :: 0 <= k < uintBufIndex ==> uintBuf[k] < U32)
      && (forall k :: 0 <= k < iovIndex && iov[k].Slot? ==> iov[k].i < uintBufIndex)
      && (forall j, k :: 0 <= j < k < iovIndex && iov[j].Slot? && iov[k].Slot? ==> iov[j].i != iov[k].i)
    }

    /** What writev gathers: the entries are followed when it runs, not when they were made. */
    ghost function Gathered(n: nat): (r: seq<byte>)
      requires Valid() && n <= iovIndex
      reads this, iov, uintBuf
      decreases n
    {
      if n == 0 then []
      else Gathered(n - 1) + match iov[n - 1] case Slot(i) => Bytes4(uintBuf[i]) case Chars(s) => s
    }

    constructor ()
      ensures Valid() && iovIndex == 0 && uintBufIndex == 0 && fresh(iov) && fresh(uintBuf)
      ensures iov.Length == 8 && uintBuf.Length == 8
    {
      iov := new Entry[SLOTS](_ => Slot(0));
      uintBuf := new nat[SLOTS](_ => 0);
      iovIndex, uintBufIndex := 0, 0;
    }

    /** Uses the next slot of both arrays; what the earlier entries point at stays as it is. */
    method WriteUint32(value: nat)
      requires Valid() && value < U32 && iovIndex < SLOTS && uintBufIndex < SLOTS
      modifies this, iov, uintBuf
      ensures Valid() && iovIndex == old(iovIndex) + 1 && uintBufIndex == old(uintBufIndex) + 1
      ensures Gathered(iovIndex) == old(Gathered(iovIndex)) + Bytes4(value)
      ensures forall k :: 0 <= k < old(iovIndex) ==> iov[k] == old(iov[k])
      ensures forall k :: 0 <= k < old(uintBufIndex) ==> uintBuf[k] == old(uintBuf[k])
    {
      var slot := uintBufIndex;
      uintBuf[uintBufIndex] := value;
      uintBufIndex := uintBufIndex + 1;
      iov[iovIndex] := Slot(slot);
      iovIndex := iovIndex + 1;
      GatheredUnchanged(iovIndex - 1);
    }

    /** What was gathered before depends only on entries and slots that were in use. */
    twostate lemma GatheredUnchanged(n: nat)
      requires old(Valid()) && Valid() && n <= old(iovIndex) <= iovIndex && old(uintBufIndex) <= uintBufIndex
      requires forall k :: 0 <= k < old(iovIndex) ==> iov[k] == old(iov[k])
      requires forall k :: 0 <= k < old(uintBufIndex) ==> uintBuf[k] == old(uintBuf[k])
      ensures Gathered(n) == old(Gathered(n))
      decreases n
    {
      if n > 0 { GatheredUnchanged(n - 1); }
    }

    /** The entry for the characters of a string. */
    method WriteChars(value: seq<byte>)
      requires Valid() && iovIndex < SLOTS
      modifies this`iovIndex, iov
      ensures Valid() && iovIndex == old(iovIndex) + 1
      ensures Gathered(iovIndex) == old(Gathered(iovIndex)) + value
    {
      iov[iovIndex] := Chars(value);
      iovIndex := iovIndex + 1;
      GatheredUnchanged(iovIndex - 1);
    }

    /** The empty string takes one entry, any other two. */
    method WriteString(value: seq<byte>)
      requires Valid() && iovIndex + (if Length32(value) == 0 then 1 else 2) <= SLOTS && uintBufIndex < SLOTS
      modifies this, iov, uintBuf
      ensures Valid() && uintBufIndex == old(uintBufIndex) + 1
      ensures iovIndex == old(iovIndex) + if Length32(value) == 0 then 1 else 2
      ensures Gathered(iovIndex) == old(Gathered(iovIndex)) + Framed(value)
    {
      hide Bytes4, Gathered, Valid;
      var valuelen := Length32(value);
      WriteUint32(valuelen);
      if valuelen == 0 {
        assert value[..0] == [];
        return;
      }
      WriteChars(value[..valuelen]);
    }

    /**
     `sent` is what writev returns: None for an error.  A short write counts as success; after success
     both arrays start again from the beginning.
     */
    method Send(connected: bool, sent: Option<nat>) returns (ok: bool, wire: seq<byte>)
      requires Valid() && (sent.Some? ==> sent.value <= |Gathered(iovIndex)|)
      modifies this
      ensures Valid() && (ok <==> connected && sent.Some?)
      ensures ok ==> wire == old(Gathered(iovIndex))[..sent.value] && iovIndex == 0 && uintBufIndex == 0
      ensures !ok ==> wire == [] && iovIndex == old(iovIndex) && uintBufIndex == old(uintBufIndex)
    {
      wire := [];
      if !connected || sent.None? {
        return false, wire;
      }
      var gathered := Gather();
      wire := gathered[..sent.value];
      iovIndex, uintBufIndex := 0, 0;
      ok := true;
    }

    /** writev itself. */
    method Gather() returns (wire: seq<byte>)
      requires Valid()
      ensures wire == Gathered(iovIndex)
    {
      wire := [];
      var k := 0;
      while k < iovIndex
        invariant 0 <= k <= iovIndex && wire == Gathered(k)
      {
        var piece := match iov[k] case Slot(i) => Bytes4(uintBuf[i]) case Chars(s) => s;
        wire := wire + piece;
        k := k + 1;
      }
    }
  }

  /** Length and characters, both cut to 32 bits. */
  function Framed(s: seq<byte>): seq<byte> { Bytes4(Length32(s)) + s[..Length32(s)] }

  function Request(cmd: nat, key: seq<byte>, value: seq<byte>): seq<byte>
    requires cmd < U32
  {
    Bytes4(cmd) + Framed(key) + Framed(value)
  }

  /**
   What the property service does: whether a connection is made, with the error otherwise; how many bytes
   it takes (None for an error); and its answer (None if there is none).
   */
  datatype Service = Service(connected: bool, error: int, taken: Option<nat>, answer: Option<int>)

  /** The connection and the writer of the current protocol: the bytes gathered are the request. */
  method SendRequest(key: seq<byte>, value: seq<byte>, service: Service) returns (ok: bool, wire: seq<byte>)
    requires service.taken.Some? ==> service.taken.value <= |Request(PROP_MSG_SETPROP2, key, value)|
    ensures ok <==> service.connected && service.taken.Some?
    ensures wire == if ok then Request(PROP_MSG_SETPROP2, key, value)[..service.taken.value] else []
  {
    hide Request;
    if !service.connected {
      return false, [];
    }
    var writer := new SocketWriter();
    NothingGathered(writer);
    QueueRequest(writer, key, value);
    assert [] + Request(PROP_MSG_SETPROP2, key, value) == Request(PROP_MSG_SETPROP2, key, value);
    ok, wire := writer.Send(service.connected, service.taken);
  }

  lemma NothingGathered(writer: SocketWriter)
    requires writer.Valid()
    ensures writer.Gathered(0) == []
  {
  }

  /** The three calls on the writer, which are within both of its arrays. */
  method QueueRequest(writer: SocketWriter, key: seq<byte>, value: seq<byte>)
    requires writer.Valid() && writer.iovIndex == 0 && writer.uintBufIndex == 0
    modifies writer, writer.iov, writer.uintBuf
    ensures writer.Valid() && writer.iovIndex <= 5 && writer.uintBufIndex == 3
    ensures writer.Gathered(writer.iovIndex) == old(writer.Gathered(0)) + Request(PROP_MSG_SETPROP2, key, value)
  {
    hide Bytes4, Framed, Request, SocketWriter.Valid, SocketWriter.Gathered;
    writer.WriteUint32(PROP_MSG_SETPROP2);
    writer.WriteString(key);
    writer.WriteString(value);
    RequestParts(old(writer.Gathered(0)), key, value);
  }

  lemma RequestParts(before: seq<byte>, key: seq<byte>, value: seq<byte>)
    ensures before + Bytes4(PROP_MSG_SETPROP2) + Framed(key) + Framed(value) == before + Request(PROP_MSG_SETPROP2, key, value)
  {
    hide Bytes4, Framed;
  }

  // -------------------------------------------------------------------------------------
  // Reading a request back.

  datatype Parsed = Parsed(cmd: nat, key: seq<byte>, value: seq<byte>)

  /** One string and what follows it. */
  function TakeString(bs: seq<byte>): Option<(seq<byte>, seq<byte>)> {
    if |bs| < 4 || |bs| - 4 < Int4(bs[..4]) then None
    else Some((bs[4..4 + Int4(bs[..4])], bs[4 + Int4(bs[..4])..]))
  }

  function ParseRequest(bs: seq<byte>): Option<Parsed> {
    if |bs| < 4 then None
    else match TakeString(bs[4..])
      case None => None
      case Some((key, rest)) =>
        match TakeString(rest)
        case None => None
        case Some((value, end)) => if end == [] then Some(Parsed(Int4(bs[..4]), key, value)) else None
  }

  lemma TakeFramed(s: seq<byte>, rest: seq<byte>)
    ensures TakeString(Framed(s) + rest) == Some((s[..Length32(s)], rest))
  {
    var n := Length32(s);
    var bs := Framed(s) + rest;
    Int4OfBytes4(n);
    assert bs[..4] == Bytes4(n);
    assert bs[4..4 + n] == s[..n];
    assert bs[4 + n..] == rest;
  }

  /** Every request can be read back; strings of 2^32 characters or more come back cut. */
  lemma RequestReadsBack(cmd: nat, key: seq<byte>, value: seq<byte>)
    requires cmd < U32
    ensures ParseRequest(Request(cmd, key, value)) == Some(Parsed(cmd, key[..Length32(key)], value[..Length32(value)]))
  {
    hide Framed, TakeString;
    var bs := Request(cmd, key, value);
    Int4OfBytes4(cmd);
    assert bs[..4] == Bytes4(cmd);
    assert bs[4..] == Framed(key) + Framed(value);
    TakeFramed(key, Framed(value));
    TakeFramed(value, []);
    assert Framed(value) + [] == Framed(value);
  }

  /** The request determines command, key and value exactly when both strings are shorter than 2^32. */
  lemma RequestIsFaithfulIff(cmd: nat, key: seq<byte>, value: seq<byte>)
    requires cmd < U32
    ensures ParseRequest(Request(cmd, key, value)) == Some(Parsed(cmd, key, value)) <==> |key| < U32 && |value| < U32
  {
    hide Request, ParseRequest;
    RequestReadsBack(cmd, key, value);
    CutIff(key);
    CutIff(value);
  }

  lemma CutIff(s: seq<byte>)
    ensures s[..Length32(s)] == s <==> |s| < U32
  {
    if |s| < U32 { assert s[..|s|] == s; } else { assert |s[..Length32(s)]| < |s|; }
  }

  /** Different requests are different bytes. */
  lemma RequestsDiffer(cmd: nat, key: seq<byte>, value: seq<byte>, cmd': nat, key': seq<byte>, value': seq<byte>)
    requires cmd < U32 && cmd' < U32 && |key| < U32 && |value| < U32 && |key'| < U32 && |value'| < U32
    requires Request(cmd, key, value) == Request(cmd', key', value')
    ensures cmd == cmd' && key == key' && value == value'
  {
    hide Request, ParseRequest;
    RequestIsFaithfulIff(cmd, key, value);
    RequestIsFaithfulIff(cmd', key', value');
  }

  // -------------------------------------------------------------------------------------
  // The two protocols of __system_property_set.

  const RO_PREFIX: seq<byte> := [114, 111, 46]     // "ro."

  /** A C string in a zeroed array of n bytes. */
  function Field(s: seq<byte>, n: nat): (r: seq<byte>)
    requires |s| < n
    ensures |r| == n
  {
    s + seq(n - |s|, _ => 0)
  }

  /** What goes out for a request: nothing if it is refused; `legacy` is the protocol before version 2. */
  function Message(legacy: bool, key: seq<byte>, value: seq<byte>): Option<seq<byte>> {
    if legacy then
      if |key| >= PROP_NAME_MAX || |value| >= PROP_VALUE_MAX then None
      else Some(Bytes4(PROP_MSG_SETPROP) + Field(key, PROP_NAME_MAX) + Field(value, PROP_VALUE_MAX))
    else if |value| >= PROP_VALUE_MAX && !(RO_PREFIX <= key) then None
    else Some(Request(PROP_MSG_SETPROP2, key, value))
  }

  const MSG_SIZE := 4 + PROP_NAME_MAX + PROP_VALUE_MAX
  const PROP_SUCCESS := 0

  /** The service takes no more than it is sent, and a failed connection has an error. */
  predicate Plausible(service: Service, message: Option<seq<byte>>) {
    && (!service.connected ==> service.error != 0)
    && (message.Some? && service.taken.Some? ==> service.taken.value <= |message.value|)
  }

  /** What the call reports: 0 only if the message went out (whole, in the old protocol) and the answer is success. */
  predicate Reported(legacy: bool, message: Option<seq<byte>>, service: Service) {
    message.Some? && service.connected &&
    if legacy then service.taken == Some(|message.value|) else service.taken.Some? && service.answer == Some(PROP_SUCCESS)
  }

  /** The keys and values that are accepted: short ones in the old protocol; in the current one a value of 92 bytes or more only under "ro.". */
  predicate Accepted(legacy: bool, key: seq<byte>, value: seq<byte>) {
    if legacy then |key| < 32 && |value| < 92
    else |value| < 92 || (|key| >= 3 && key[0] == 114 && key[1] == 111 && key[2] == 46)
  }

  /** The service connects, takes a message of this size whole, and acknowledges it. */
  predicate Cooperates(service: Service, legacy: bool, key: seq<byte>, value: seq<byte>) {
    service.connected && service.answer == Some(0) &&
    service.taken == Some(if legacy then 128 else 4 + 4 + |key| + 4 + |value|)
  }

  /** The bytes of an accepted message, for strings shorter than 256 in the current protocol. */
  function Layout(legacy: bool, key: seq<byte>, value: seq<byte>): seq<byte>
    requires if legacy then |key| < 32 && |value| < 92 else |key| < 256 && |value| < 256
  {
    if legacy then [1, 0, 0, 0] + key + seq(32 - |key|, _ => 0 as byte) + value + seq(92 - |value|, _ => 0 as byte)
    else [1, 0, 2, 0] + [|key| as byte, 0, 0, 0] + key + [|value| as byte, 0, 0, 0] + value
  }

  lemma MessageIffAccepted(legacy: bool, key: seq<byte>, value: seq<byte>)
    ensures Message(legacy, key, value).Some? <==> Accepted(legacy, key, value)
    ensures Accepted(legacy, key, value) && |key| < U32 && |value| < U32 ==>
      |Message(legacy, key, value).value| == if legacy then 128 else 4 + 4 + |key| + 4 + |value|
  {
    hide Bytes4;
    if |key| >= 3 && key[0] == 114 && key[1] == 111 && key[2] == 46 {
      assert key[..3] == RO_PREFIX && key == key[..3] + key[3..];
    }
  }

  lemma MessageBegins(legacy: bool, key: seq<byte>, value: seq<byte>)
    requires Message(legacy, key, value).Some?
    ensures var m := Message(legacy, key, value).value;
      |m| >= 4 && m[..4] == if legacy then [1, 0, 0, 0] else [1, 0, 2, 0]
  {
    hide Framed, Field;
    CommandWords();
    var m := Message(legacy, key, value).value;
    assert m[..4] == Bytes4(if legacy then PROP_MSG_SETPROP else PROP_MSG_SETPROP2);
  }

  lemma CommandWords()
    ensures Bytes4(PROP_MSG_SETPROP) == [1, 0, 0, 0] && Bytes4(PROP_MSG_SETPROP2) == [1, 0, 2, 0]
  {
  }

  lemma MessageLayout(legacy: bool, key: seq<byte>, value: seq<byte>)
    requires Message(legacy, key, value).Some? && (!legacy ==> |key| < 256 && |value| < 256)
    ensures |key| < (if legacy then 32 else 256) && |value| < (if legacy then 92 else 256)
    ensures Message(legacy, key, value).value == Layout(legacy, key, value)
  {
    hide Bytes4;
    CommandWords();
    if legacy {
      assert Field(key, 32) == key + seq(32 - |key|, _ => 0 as byte) && Field(value, 92) == value + seq(92 - |value|, _ => 0 as byte);
    } else {
      SmallLength(key);
      SmallLength(value);
    }
  }

  lemma SmallLength(s: seq<byte>)
    requires |s| < 256
    ensures Framed(s) == [|s| as byte, 0, 0, 0] + s
  {
    assert s[..|s|] == s;
  }

  method SystemPropertySet(legacy: bool, key: seq<byte>, value: seq<byte>, service: Service)
    returns (result: int, wire: seq<byte>)
    requires Plausible(service, Message(legacy, key, value))
    ensures result == 0 <==> Reported(legacy, Message(legacy, key, value), service)
    ensures var m := Message(legacy, key, value);
      wire == if m.Some? && service.connected && service.taken.Some? then m.value[..service.taken.value] else []
    ensures Cooperates(service, legacy, key, value) && |key| < U32 && |value| < U32 ==>
      (result == 0 <==> Accepted(legacy, key, value))
    ensures result == 0 && service.taken.value >= 4 ==> wire[..4] == if legacy then [1, 0, 0, 0] else [1, 0, 2, 0]
  {
    hide Request, Message, Bytes4, Field;
    MessageIffAccepted(legacy, key, value);
    if Message(legacy, key, value).Some? { MessageBegins(legacy, key, value); }
    MessageIs(legacy, key, value);
    if legacy {
      if |key| >= PROP_NAME_MAX {
        return -1, [];
      }
      if |value| >= PROP_VALUE_MAX {
        return -1, [];
      }
      var msg := Bytes4(PROP_MSG_SETPROP) + Field(key, PROP_NAME_MAX) + Field(value, PROP_VALUE_MAX);
      result, wire := SendPropMsg(msg, service);
      return;
    }
    if |value| >= PROP_VALUE_MAX && !(RO_PREFIX <= key) {
      return -1, [];
    }
    var ok;
    ok, wire := SendRequest(key, value, service);
    if !ok || service.answer.None? || service.answer.value != PROP_SUCCESS {
      result := -1;
    } else {
      result := 0;
    }
  }

  lemma MessageIs(legacy: bool, key: seq<byte>, value: seq<byte>)
    ensures Message(legacy, key, value) ==
      if legacy then
        if |key| >= PROP_NAME_MAX || |value| >= PROP_VALUE_MAX then None
        else Some(Bytes4(PROP_MSG_SETPROP) + Field(key, PROP_NAME_MAX) + Field(value, PROP_VALUE_MAX))
      else if |value| >= PROP_VALUE_MAX && !(RO_PREFIX <= key) then None
      else Some(Request(PROP_MSG_SETPROP2, key, value))
  {
  }

  /** A message of the old protocol: the wait for the service to hang up is taken for success either way. */
  method SendPropMsg(msg: seq<byte>, service: Service) returns (result: int, wire: seq<byte>)
    requires |msg| == MSG_SIZE && Plausible(service, Some(msg))
    ensures result == 0 <==> service.connected && service.taken == Some(|msg|)
    ensures wire == if service.connected && service.taken.Some? then msg[..service.taken.value] else []
  {
    if !service.connected {
      return service.error, [];
    }
    wire := if service.taken.Some? then msg[..service.taken.value] else [];
    result := if service.taken == Some(MSG_SIZE) then 0 else -1;
  }

  predicate NulFree(s: seq<byte>) { forall i :: 0 <= i < |s| ==> s[i] != 0 }

  /** The C string that an array holds. */
  function UntilNul(bs: seq<byte>): seq<byte> {
    if bs == [] || bs[0] == 0 then [] else [bs[0]] + UntilNul(bs[1..])
  }

  lemma {:induction false} UntilNulOfField(s: seq<byte>, n: nat)
    requires NulFree(s) && |s| < n
    ensures UntilNul(Field(s, n)) == s
  {
    if s == [] {
      assert Field(s, n)[0] == 0;
    } else {
      assert Field(s, n)[1..] == Field(s[1..], n - 1);
      UntilNulOfField(s[1..], n - 1);
      assert s == [s[0]] + s[1..];
    }
  }

  function ParseMessage(legacy: bool, bs: seq<byte>): Option<(seq<byte>, seq<byte>)> {
    if legacy then
      if |bs| != 4 + PROP_NAME_MAX + PROP_VALUE_MAX then None
      else Some((UntilNul(bs[4..4 + PROP_NAME_MAX]), UntilNul(bs[4 + PROP_NAME_MAX..])))
    else match ParseRequest(bs) case None => None case Some(p) => Some((p.key, p.value))
  }

  lemma OldMessageReadsBack(key: seq<byte>, value: seq<byte>)
    requires NulFree(key) && NulFree(value) && |key| < PROP_NAME_MAX && |value| < PROP_VALUE_MAX
    ensures ParseMessage(true, Bytes4(PROP_MSG_SETPROP) + Field(key, PROP_NAME_MAX) + Field(value, PROP_VALUE_MAX)) == Some((key, value))
  {
    hide Field, UntilNul;
    var bs := Bytes4(PROP_MSG_SETPROP) + Field(key, PROP_NAME_MAX) + Field(value, PROP_VALUE_MAX);
    assert bs[4..4 + PROP_NAME_MAX] == Field(key, PROP_NAME_MAX);
    assert bs[4 + PROP_NAME_MAX..] == Field(value, PROP_VALUE_MAX);
    UntilNulOfField(key, PROP_NAME_MAX);
    UntilNulOfField(value, PROP_VALUE_MAX);
  }

  /** Under either protocol, a request that goes out carries exactly the key and the value. */
  lemma MessagesReadBack(legacy: bool, key: seq<byte>, value: seq<byte>)
    requires NulFree(key) && NulFree(value) && |key| < U32 && |value| < U32
    requires Message(legacy, key, value).Some?
    ensures ParseMessage(legacy, Message(legacy, key, value).value) == Some((key, value))
  {
    hide ParseRequest, Request;
    if legacy { OldMessageReadsBack(key, value); } else { RequestIsFaithfulIff(PROP_MSG_SETPROP2, key, value); }
  }

  /**
   A reported success means that the service could read the key and the value from what it was sent; in
   the current protocol this needs that the write was not short, which the source does not check.
   */
  lemma SuccessCarriesTheProperty(legacy: bool, key: seq<byte>, value: seq<byte>, service: Service)
    requires NulFree(key) && NulFree(value) && |key| < U32 && |value| < U32
    requires Plausible(service, Message(legacy, key, value)) && Reported(legacy, Message(legacy, key, value), service)
    ensures var m := Message(legacy, key, value).value;
      ParseMessage(legacy, m[..service.taken.value]) == Some((key, value)) <==> service.taken == Some(|m|)
    ensures legacy ==> service.taken == Some(|Message(legacy, key, value).value|)
  {
    hide Request, ParseRequest;
    var m := Message(legacy, key, value).value;
    MessagesReadBack(legacy, key, value);
    if service.taken == Some(|m|) {
      assert m[..|m|] == m;
    } else {
      CutRequestIsRefused(key, value, service.taken.value);
    }
  }

  /** A request cut short cannot be read. */
  lemma CutRequestIsRefused(key: seq<byte>, value: seq<byte>, n: nat)
    requires |key| < U32 && |value| < U32 && n < |Request(PROP_MSG_SETPROP2, key, value)|
    ensures ParseRequest(Request(PROP_MSG_SETPROP2, key, value)[..n]) == None
  {
    hide Bytes4, TakeString;
    var bs := Request(PROP_MSG_SETPROP2, key, value);
    if n >= 4 {
      var rest := Framed(key) + Framed(value);
      assert bs[..n][4..] == rest[..n - 4];
      if n - 4 < |Framed(key)| {
        assert rest[..n - 4] == Framed(key)[..n - 4];
        TakeCut(key, n - 4);
      } else {
        var k := n - 4 - |Framed(key)|;
        assert rest[..n - 4] == Framed(key) + Framed(value)[..k];
        TakeFramed(key, Framed(value)[..k]);
        TakeCut(value, k);
      }
    }
  }

  lemma TakeCut(s: seq<byte>, n: nat)
    requires |s| < U32 && n < |Framed(s)|
    ensures TakeString(Framed(s)[..n]) == None
  {
    Int4OfBytes4(|s|);
    if n >= 4 { assert Framed(s)[..n][..4] == Bytes4(|s|); }
  }
}
