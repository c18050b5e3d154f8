/** The send queue of a connection: any number of threads push packets, one asynchronous write
    at a time takes them out. Each label is one critical section, or progress of the write. */
module SendQueues {
  import opened Common
  import opened Packets
  import opened Serializers

  type CallerId = nat

  /** Where a thread is inside `addSendPacket`. */
  datatype Caller = Outside | Pushed | Owner

  /** `done` bytes of the first `length` bytes of the buffer have left; `packet` is the history
      of what was serialized there. */
  datatype Write = Write(packet: ControlPacket, length: nat, done: nat)

  datatype State = State(
    callers: map<CallerId, Caller>,
    queue: seq<ControlPacket>,
    isSending: bool,
    buffer: Str,
    write: Option<Write>,
    completing: bool,               // a completion handler is about to look for the next packet
    failed: bool,                   // a write has ended with an error
    overrun: bool,                  // the serializer has written beyond the buffer
    wire: Str,                      // the bytes that have left
    pushed: seq<ControlPacket>,     // history: all packets pushed
    sent: seq<ControlPacket>)       // history: the packets whose write is over

  datatype Label =
    | Push(c: CallerId, packet: ControlPacket)
    | Check(c: CallerId)
    | DoSend(c: CallerId)
    | Transmit(n: nat)
    | Complete
    | SendNext
    | Fail

  function Init(callers: set<CallerId>, buffer: Str): State {
    State(map c | c in callers :: Outside, [], false, buffer, None, false, false, false, [], [], [])
  }

  function Padding(n: nat): (s: Str)
    ensures |s| == n
  {
    seq(n, _ => 0)
  }

  /** The buffer after a packet has been serialized into it. */
  function Overwritten(buffer: Str, p: ControlPacket): (b: Str)
    requires Fits(p, |buffer|)
    ensures |b| >= |buffer| && |b| >= |Wire(p)| && b[..|Wire(p)|] == Wire(p)
  {
    var size := if |buffer| < Reserved(p) then Reserved(p) else |buffer|;
    Wire(p) + (buffer + Padding(size - |buffer|))[|Wire(p)|..]
  }

  /** `doSendPackages`, which holds the mutex throughout. */
  function DoSendPackages(s: State): State {
    if s.queue == [] then s.(isSending := false)
    else
      var p := s.queue[0];
      var s' := s.(queue := s.queue[1..]);
      if !Serializable(p) then s'.(isSending := false)
      else if !Fits(p, |s.buffer|) then s'.(overrun := true)
      else s'.(buffer := Overwritten(s.buffer, p), write := Some(Write(p, |Wire(p)|, 0)))
  }

  predicate Enabled(s: State, l: Label) {
    && !s.overrun
    && match l
       case Push(c, _) => c in s.callers && s.callers[c] == Outside
       case Check(c) => c in s.callers && s.callers[c] == Pushed
       case DoSend(c) => c in s.callers && s.callers[c] == Owner
       case Transmit(n) => s.write.Some? && s.write.value.done + n <= s.write.value.length <= |s.buffer|
       case Complete => s.write.Some? && s.write.value.done == s.write.value.length
       case SendNext => s.completing
       case Fail => s.write.Some?
  }

  function Step(s: State, l: Label): State
    requires Enabled(s, l)
  {
    match l
    case Push(c, p) => s.(queue := s.queue + [p], pushed := s.pushed + [p], callers := s.callers[c := Pushed])
    case Check(c) =>
      if s.isSending then s.(callers := s.callers[c := Outside])
      else s.(isSending := true, callers := s.callers[c := Owner])
    case DoSend(c) => DoSendPackages(s.(callers := s.callers[c := Outside]))
    case Transmit(n) =>
      var w := s.write.value;
      s.(wire := s.wire + s.buffer[w.done..w.done + n], write := Some(w.(done := w.done + n)))
    case Complete => s.(write := None, completing := true, sent := s.sent + [s.write.value.packet])
    case SendNext => DoSendPackages(s.(completing := false))
    case Fail => s.(write := None, failed := true, sent := s.sent + [s.write.value.packet])
  }

  // ---------------------------------------------------------------- the invariant

  predicate IsOwner(s: State, c: CallerId) {
    c in s.callers && s.callers[c] == Owner
  }

  predicate IsPushed(s: State, c: CallerId) {
    c in s.callers && s.callers[c] == Pushed
  }

  /** `isSending` is a token: it is set exactly while one thread, the outstanding write, its
      completion handler or a failed write has it. */
  ghost predicate Token(s: State) {
    && (s.isSending ==> (exists c :: IsOwner(s, c)) || s.write.Some? || s.completing || s.failed || s.overrun)
    && (forall c | IsOwner(s, c) :: s.isSending && s.write.None? && !s.completing && !s.failed && !s.overrun)
    && (forall c, d | IsOwner(s, c) && IsOwner(s, d) :: c == d)
    && (s.write.Some? ==> s.isSending && !s.completing && !s.failed && !s.overrun)
    && (s.completing ==> s.isSending && !s.failed && !s.overrun)
    && (s.failed ==> s.isSending)
  }

  predicate AllSerializable(ps: seq<ControlPacket>) {
    forall i | 0 <= i < |ps| :: Serializable(ps[i])
  }

  /** The bytes that have left are those of the packets sent and, during a write, the first
      bytes of its packet, whose remaining bytes are still in the buffer. */
  predicate Bytes(s: State) {
    if s.write.Some? then WriteBytes(WireAll(s.sent), Wire(s.write.value.packet), s.write.value, s.buffer, s.wire)
    else if s.failed then s.wire <= WireAll(s.sent)
    else s.wire == WireAll(s.sent)
  }

  predicate WriteBytes(before: Str, text: Str, w: Write, buffer: Str, wire: Str) {
    && w.length == |text| && w.done <= |text| <= |buffer| && buffer[..|text|] == text
    && wire == before + text[..w.done]
  }

  function Current(s: State): seq<ControlPacket> {
    if s.write.Some? then [s.write.value.packet] else []
  }

  /** First in, first out; nobody leaves while a packet is waiting without a sender. */
  ghost predicate Fifo(s: State) {
    AllSerializable(s.pushed) && !s.overrun ==>
      && s.pushed == s.sent + Current(s) + s.queue
      && (s.isSending || s.queue == [] || exists c :: IsPushed(s, c))
  }

  ghost predicate Inv(s: State) {
    Token(s) && Bytes(s) && Fifo(s)
  }

  lemma InitInv(callers: set<CallerId>, buffer: Str)
    ensures Inv(Init(callers, buffer))
  {
  }

  /** Nobody has the token but the thread that is about to use it. */
  ghost predicate InHand(s: State) {
    s.isSending && (forall c :: !IsOwner(s, c)) && s.write.None? && !s.completing && !s.failed && !s.overrun
  }

  lemma SendToken(s: State)
    requires InHand(s)
    ensures Token(DoSendPackages(s))
  {
    forall c ensures !IsOwner(DoSendPackages(s), c) {
      assert !IsOwner(s, c);
    }
  }

  lemma CheckToken(s: State, c: CallerId)
    requires Token(s) && Enabled(s, Check(c))
    ensures Token(Step(s, Check(c)))
  {
    var s' := Step(s, Check(c));
    forall d ensures IsOwner(s', d) <==> IsOwner(s, d) || (!s.isSending && d == c) {
    }
    if s.isSending {
      if d :| IsOwner(s, d) {
        assert IsOwner(s', d);
      }
    } else {
      assert IsOwner(s', c);
    }
  }

  lemma PushToken(s: State, c: CallerId, p: ControlPacket)
    requires Token(s) && Enabled(s, Push(c, p))
    ensures Token(Step(s, Push(c, p)))
  {
    var s' := Step(s, Push(c, p));
    forall d ensures IsOwner(s', d) <==> IsOwner(s, d) {
    }
    if d :| IsOwner(s, d) {
      assert IsOwner(s', d);
    }
  }

  /** The thread that holds the token leaves its place to use it. */
  lemma TakesToken(s: State, c: CallerId)
    requires Token(s) && Enabled(s, DoSend(c))
    ensures InHand(s.(callers := s.callers[c := Outside]))
  {
    assert IsOwner(s, c);
    var s' := s.(callers := s.callers[c := Outside]);
    forall d ensures !IsOwner(s', d) {
      assert IsOwner(s, d) ==> d == c;
    }
  }

  lemma HandlerTakesToken(s: State)
    requires Token(s) && Enabled(s, SendNext)
    ensures InHand(s.(completing := false))
  {
    var s' := s.(completing := false);
    forall d ensures !IsOwner(s', d) {
      assert !IsOwner(s, d);
    }
  }

  lemma ProgressToken(s: State, l: Label)
    requires Token(s) && Enabled(s, l) && (l.Transmit? || l.Complete? || l.Fail?)
    ensures Token(Step(s, l))
  {
    forall c ensures !IsOwner(Step(s, l), c) {
      assert !IsOwner(s, c);
    }
  }

  lemma StepToken(s: State, l: Label)
    requires Token(s) && Enabled(s, l)
    ensures Token(Step(s, l))
  {
    match l
    case Push(c, p) => PushToken(s, c, p);
    case Check(c) => CheckToken(s, c);
    case DoSend(c) =>
      TakesToken(s, c);
      SendToken(s.(callers := s.callers[c := Outside]));
    case SendNext =>
      HandlerTakesToken(s);
      SendToken(s.(completing := false));
    case _ => ProgressToken(s, l);
  }

  lemma SendBytes(s: State)
    requires InHand(s) && Bytes(s)
    ensures Bytes(DoSendPackages(s))
  {
  }

  /** Sending the next `n` bytes of a text from a buffer that starts with it. */
  lemma NextBytes(before: Str, text: Str, w: Write, buffer: Str, wire: Str, n: nat)
    requires WriteBytes(before, text, w, buffer, wire) && w.done + n <= w.length
    ensures WriteBytes(before, text, w.(done := w.done + n), buffer, wire + buffer[w.done..w.done + n])
  {
  }

  lemma TransmitBytes(s: State, n: nat)
    requires Bytes(s) && Enabled(s, Transmit(n))
    ensures Bytes(Step(s, Transmit(n)))
  {
    var before, text, w := WireAll(s.sent), Wire(s.write.value.packet), s.write.value;
    NextBytes(before, text, w, s.buffer, s.wire, n);
    var s' := Step(s, Transmit(n));
    assert s'.write == Some(w.(done := w.done + n)) && s'.sent == s.sent && s'.buffer == s.buffer;
    assert WriteBytes(before, text, s'.write.value, s'.buffer, s'.wire);
  }

  lemma LastBytes(before: Str, text: Str, w: Write, buffer: Str, wire: Str)
    requires WriteBytes(before, text, w, buffer, wire)
    ensures wire <= before + text
    ensures w.done == w.length ==> wire == before + text
  {
  }

  /** What has left, together with what is still to leave. */
  lemma PartialWire(s: State)
    requires Bytes(s) && s.write.Some?
    ensures s.wire <= WireAll(s.sent + [s.write.value.packet])
    ensures s.write.value.done == s.write.value.length ==> s.wire == WireAll(s.sent + [s.write.value.packet])
  {
    var p := s.write.value.packet;
    WireAllSnoc(s.sent, p);
    LastBytes(WireAll(s.sent), Wire(p), s.write.value, s.buffer, s.wire);
  }

  lemma EndBytes(s: State, l: Label)
    requires Bytes(s) && Enabled(s, l) && ((l.Complete? && !s.failed) || l.Fail?)
    ensures Bytes(Step(s, l))
  {
    PartialWire(s);
  }

  lemma QueueBytes(s: State, l: Label)
    requires Bytes(s) && Enabled(s, l) && (l.Push? || l.Check?)
    ensures Bytes(Step(s, l))
  {
  }

  lemma StepBytes(s: State, l: Label)
    requires Token(s) && Bytes(s) && Enabled(s, l)
    ensures Bytes(Step(s, l))
  {
    match l
    case DoSend(c) =>
      TakesToken(s, c);
      SendBytes(s.(callers := s.callers[c := Outside]));
    case SendNext =>
      HandlerTakesToken(s);
      SendBytes(s.(completing := false));
    case Transmit(n) => TransmitBytes(s, n);
    case Complete => EndBytes(s, l);
    case Fail => EndBytes(s, l);
    case _ => QueueBytes(s, l);
  }

  lemma SendFifo(s: State)
    requires InHand(s) && Fifo(s)
    ensures Fifo(DoSendPackages(s))
  {
    if s.queue != [] {
      assert s.queue == [s.queue[0]] + s.queue[1..];
      assert s.sent + [] + s.queue == s.sent + [s.queue[0]] + s.queue[1..];
      if AllSerializable(s.pushed) {
        assert s.queue[0] == s.pushed[|s.sent|];
      }
    }
  }

  lemma PushFifo(s: State, c: CallerId, p: ControlPacket)
    requires Fifo(s) && Enabled(s, Push(c, p))
    ensures Fifo(Step(s, Push(c, p)))
  {
    var s' := Step(s, Push(c, p));
    if AllSerializable(s'.pushed) {
      assert forall i | 0 <= i < |s.pushed| :: s.pushed[i] == s'.pushed[i];
      assert s.sent + Current(s) + s.queue + [p] == s.sent + Current(s) + (s.queue + [p]);
    }
    assert IsPushed(s', c);
  }

  lemma CheckFifo(s: State, c: CallerId)
    requires Fifo(s) && Enabled(s, Check(c))
    ensures Fifo(Step(s, Check(c)))
  {
  }

  lemma EndFifo(s: State, l: Label)
    requires Token(s) && Fifo(s) && Enabled(s, l) && (l.Transmit? || l.Complete? || l.Fail?)
    ensures Fifo(Step(s, l))
  {
  }

  lemma StepFifo(s: State, l: Label)
    requires Token(s) && Fifo(s) && Enabled(s, l)
    ensures Fifo(Step(s, l))
  {
    match l
    case Push(c, p) => PushFifo(s, c, p);
    case Check(c) => CheckFifo(s, c);
    case DoSend(c) =>
      TakesToken(s, c);
      SendFifo(s.(callers := s.callers[c := Outside]));
    case SendNext =>
      HandlerTakesToken(s);
      SendFifo(s.(completing := false));
    case _ => EndFifo(s, l);
  }

  lemma StepInv(s: State, l: Label)
    requires Inv(s) && Enabled(s, l)
    ensures Inv(Step(s, l))
  {
    StepToken(s, l);
    StepBytes(s, l);
    StepFifo(s, l);
  }

  // ---------------------------------------------------------------- whole runs

  ghost predicate CanRun(s: State, labels: seq<Label>)
    decreases labels
  {
    labels == [] || (Enabled(s, labels[0]) && CanRun(Step(s, labels[0]), labels[1..]))
  }

  ghost function Run(s: State, labels: seq<Label>): State
    requires CanRun(s, labels)
    decreases labels
  {
    if labels == [] then s else Run(Step(s, labels[0]), labels[1..])
  }

  lemma {:induction false} RunInv(s: State, labels: seq<Label>)
    requires Inv(s) && CanRun(s, labels)
    ensures Inv(Run(s, labels))
    decreases labels
  {
    if labels != [] {
      StepInv(s, labels[0]);
      RunInv(Step(s, labels[0]), labels[1..]);
    }
  }

  /** At most one thread works on the write buffer, and none while a write is outstanding. */
  lemma OneWriter(callers: set<CallerId>, buffer: Str, labels: seq<Label>)
    requires CanRun(Init(callers, buffer), labels)
    ensures var s := Run(Init(callers, buffer), labels);
      && (forall c, d | IsOwner(s, c) && IsOwner(s, d) :: c == d)
      && (s.write.Some? ==> !s.completing && forall c :: !IsOwner(s, c))
      && (s.completing ==> forall c :: !IsOwner(s, c))
  {
    RunInv(Init(callers, buffer), labels);
  }

  /** Bytes leave in push order: at any moment they are an initial part of the packets pushed. */
  lemma InPushOrder(callers: set<CallerId>, buffer: Str, labels: seq<Label>)
    requires CanRun(Init(callers, buffer), labels)
    requires var s := Run(Init(callers, buffer), labels); AllSerializable(s.pushed) && !s.overrun
    ensures var s := Run(Init(callers, buffer), labels);
      s.pushed == s.sent + Current(s) + s.queue && s.wire <= WireAll(s.pushed)
  {
    RunInv(Init(callers, buffer), labels);
    var s := Run(Init(callers, buffer), labels);
    WirePrefix(s);
    WireAllConcat(s.sent + Current(s), s.queue);
  }

  lemma WirePrefix(s: State)
    requires Bytes(s)
    ensures s.wire <= WireAll(s.sent + Current(s))
  {
    if s.write.Some? {
      PartialWire(s);
    } else {
      assert s.sent + [] == s.sent;
    }
  }

  lemma {:induction false} WireAllConcat(a: seq<ControlPacket>, b: seq<ControlPacket>)
    ensures WireAll(a + b) == WireAll(a) + WireAll(b)
    decreases |a|
  {
    if a == [] {
      assert a + b == b;
    } else {
      assert (a + b)[1..] == a[1..] + b;
      WireAllConcat(a[1..], b);
      Assoc(Wire(a[0]), WireAll(a[1..]), WireAll(b));
    }
  }

  /** Nobody is inside `addSendPacket`, and no write or handler is under way or has failed. */
  predicate AtRest(s: State) {
    !s.failed && s.write.None? && !s.completing && forall c | c in s.callers :: s.callers[c] == Outside
  }

  /** Nothing is stranded: when no thread is inside `addSendPacket`, no write or handler is
      under way and no write has failed, all that was pushed has left. */
  lemma NothingStranded(callers: set<CallerId>, buffer: Str, labels: seq<Label>)
    requires CanRun(Init(callers, buffer), labels)
    requires var s := Run(Init(callers, buffer), labels); AllSerializable(s.pushed) && !s.overrun && AtRest(s)
    ensures var s := Run(Init(callers, buffer), labels);
      !s.isSending && s.queue == [] && s.wire == WireAll(s.pushed)
  {
    RunInv(Init(callers, buffer), labels);
    var s := Run(Init(callers, buffer), labels);
    assert forall c :: !IsOwner(s, c) && !IsPushed(s, c);
    assert s.sent + [] + [] == s.sent;
  }

  /** A packet that cannot be serialized, like PINGREQ, does strand what waits behind it. */
  lemma UnserializableStrands(p: ControlPacket)
    returns (labels: seq<Label>)
    ensures CanRun(Init({1, 2}, []), labels)
    ensures var s := Run(Init({1, 2}, []), labels);
      s.queue == [p] && !s.isSending && !s.overrun && AtRest(s)
  {
    labels := [Push(1, PingReq), Check(1), Push(2, p), Check(2), DoSend(1)];
    var s0 := Init({1, 2}, []);
    var s1 := Step(s0, labels[0]);
    var s2 := Step(s1, labels[1]);
    var s3 := Step(s2, labels[2]);
    var s4 := Step(s3, labels[3]);
    var s5 := Step(s4, labels[4]);
    RunCons(s4, labels[4..]);
    RunCons(s3, labels[3..]);
    RunCons(s2, labels[2..]);
    RunCons(s1, labels[1..]);
    RunCons(s0, labels);
    assert s5.queue == [p];
  }

  lemma RunCons(s: State, labels: seq<Label>)
    requires labels != [] && Enabled(s, labels[0]) && CanRun(Step(s, labels[0]), labels[1..])
    ensures CanRun(s, labels) && Run(s, labels) == Run(Step(s, labels[0]), labels[1..])
  {
  }

  // ---------------------------------------------------------------- the buffer

  /** Every waiting packet fits a buffer of the size there was at the beginning. */
  predicate Roomy(s: State, size: nat) {
    !s.overrun && |s.buffer| >= size && forall i | 0 <= i < |s.queue| :: Fits(s.queue[i], size)
  }

  predicate PushesFit(labels: seq<Label>, size: nat) {
    forall i | 0 <= i < |labels| && labels[i].Push? :: Fits(labels[i].packet, size)
  }

  lemma StepRoomy(s: State, l: Label, size: nat)
    requires Roomy(s, size) && Enabled(s, l) && (l.Push? ==> Fits(l.packet, size))
    ensures Roomy(Step(s, l), size)
  {
  }

  /** The serializer stays inside the buffer as long as every packet pushed fits the buffer as
      it was at first: `Serializers.FitsExactly` says which do. */
  lemma {:induction false} NoOverrun(s: State, labels: seq<Label>, size: nat)
    requires Roomy(s, size) && CanRun(s, labels) && PushesFit(labels, size)
    ensures Roomy(Run(s, labels), size)
    decreases labels
  {
    if labels != [] {
      StepRoomy(s, labels[0], size);
      NoOverrun(Step(s, labels[0]), labels[1..], size);
    }
  }

  // ---------------------------------------------------------------- exactly when it overruns

  function Grown(size: nat, p: ControlPacket): nat {
    if Serializable(p) && size < Reserved(p) then Reserved(p) else size
  }

  /** The size of a buffer after these packets have been serialized into it one by one. */
  function SizeAfter(size: nat, ps: seq<ControlPacket>): nat {
    if ps == [] then size else Grown(SizeAfter(size, ps[..|ps| - 1]), ps[|ps| - 1])
  }

  /** Every packet fits the buffer its predecessors have left. */
  predicate AllFit(size: nat, ps: seq<ControlPacket>) {
    forall i | 0 <= i < |ps| :: Fits(ps[i], SizeAfter(size, ps[..i]))
  }

  lemma OneMore(size: nat, ps: seq<ControlPacket>, p: ControlPacket)
    ensures SizeAfter(size, ps + [p]) == Grown(SizeAfter(size, ps), p)
    ensures AllFit(size, ps) ==> (AllFit(size, ps + [p]) <==> Fits(p, SizeAfter(size, ps)))
  {
    var all := ps + [p];
    assert all[..|ps|] == ps && all[|ps|] == p;
    if AllFit(size, ps) && Fits(p, SizeAfter(size, ps)) {
      forall i | 0 <= i < |all| ensures Fits(all[i], SizeAfter(size, all[..i])) {
        if i < |ps| {
          assert all[..i] == ps[..i];
        }
      }
    }
  }

  /** The packets that have been taken out of the queue, in order, sent or not. */
  function Taken(s: State): seq<ControlPacket> {
    if |s.queue| <= |s.pushed| then s.pushed[..|s.pushed| - |s.queue|] else []
  }

  predicate Sized(s: State, size: nat) {
    && s.pushed == Taken(s) + s.queue
    && (s.overrun <==> !AllFit(size, Taken(s)))
    && (!s.overrun ==> |s.buffer| == SizeAfter(size, Taken(s)))
  }

  lemma TakesNext(s: State)
    requires !s.overrun && s.queue != [] && s.pushed == Taken(s) + s.queue
    ensures var s' := DoSendPackages(s);
      Taken(s') == Taken(s) + [s.queue[0]] && s'.pushed == Taken(s') + s'.queue
  {
    assert s.queue == [s.queue[0]] + s.queue[1..];
    assert s.pushed == (Taken(s) + [s.queue[0]]) + s.queue[1..];
  }

  lemma WritesNext(s: State)
    requires !s.overrun && s.queue != []
    ensures var s' := DoSendPackages(s);
      && (s'.overrun <==> !Fits(s.queue[0], |s.buffer|))
      && (!s'.overrun ==> |s'.buffer| == Grown(|s.buffer|, s.queue[0]))
  {
  }

  lemma SendSized(s: State, size: nat)
    requires !s.overrun && Sized(s, size)
    ensures Sized(DoSendPackages(s), size)
  {
    if s.queue != [] {
      TakesNext(s);
      WritesNext(s);
      OneMore(size, Taken(s), s.queue[0]);
    } else {
      assert Taken(DoSendPackages(s)) == Taken(s);
    }
  }

  lemma StepSized(s: State, l: Label, size: nat)
    requires Sized(s, size) && Enabled(s, l)
    ensures Sized(Step(s, l), size)
  {
    match l
    case Push(c, p) =>
      assert s.pushed + [p] == Taken(s) + (s.queue + [p]);
      assert Taken(Step(s, l)) == Taken(s);
    case DoSend(c) => SendSized(s.(callers := s.callers[c := Outside]), size);
    case SendNext => SendSized(s.(completing := false), size);
    case _ =>
  }

  lemma {:induction false} RunSized(s: State, labels: seq<Label>, size: nat)
    requires Sized(s, size) && CanRun(s, labels)
    ensures Sized(Run(s, labels), size)
    decreases labels
  {
    if labels != [] {
      StepSized(s, labels[0], size);
      RunSized(Step(s, labels[0]), labels[1..], size);
    }
  }

  /** In every run: the buffer is overrun exactly when one of the packets taken out so far does
      not fit the buffer that the ones before it have left. When nobody is inside, nothing has
      gone wrong and every packet can be serialized, these are all packets pushed. */
  lemma OverrunExact(callers: set<CallerId>, buffer: Str, labels: seq<Label>)
    requires CanRun(Init(callers, buffer), labels)
    ensures var s := Run(Init(callers, buffer), labels);
      && s.pushed == Taken(s) + s.queue
      && (s.overrun <==> !AllFit(|buffer|, Taken(s)))
      && (AllSerializable(s.pushed) && !s.overrun && AtRest(s) ==> Taken(s) == s.pushed)
  {
    RunSized(Init(callers, buffer), labels, |buffer|);
    var s := Run(Init(callers, buffer), labels);
    if AllSerializable(s.pushed) && !s.overrun && AtRest(s) {
      NothingStranded(callers, buffer, labels);
    }
  }

  /** The buffer of a connection has 64 bytes; a PUBLISH of 128 bytes or more overruns it. */
  lemma LongPublishOverruns(p: ControlPacket) returns (labels: seq<Label>)
    requires p.Publish? && 128 <= |Body(p)| < 0x1_0000_0000 - 2
    ensures CanRun(Init({1}, Padding(64)), labels) && Run(Init({1}, Padding(64)), labels).overrun
    ensures Run(Init({1}, Padding(64)), labels).pushed == [p]
  {
    labels := [Push(1, p), Check(1), DoSend(1)];
    var s0 := Init({1}, Padding(64));
    var s1 := Step(s0, labels[0]);
    var s2 := Step(s1, labels[1]);
    FitsExactly(p, 64);
    assert s2.queue == [p] && |Wire(p)| >= |Body(p)|;
    RunCons(s2, labels[2..]);
    RunCons(s1, labels[1..]);
    RunCons(s0, labels);
  }
}
