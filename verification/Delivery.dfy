/** Processors and send queue put together: `addSendPacket` is where an outbox becomes a queue. */
module Deliveries {
  import opened Common
  import opened Serializers
  import opened SessionManagers
  import Brokers
  import SendQueues

  /** Everything a processor sends to a connection can be serialized, so nothing is stranded. */
  lemma OutboxSerializable(ps: set<ProcessorId>, labels: seq<Brokers.Label>, q: ProcessorId)
    requires Brokers.CanRun(Brokers.Init(ps), labels) && q in Brokers.Run(Brokers.Init(ps), labels).outbox
    ensures SendQueues.AllSerializable(Brokers.Run(Brokers.Init(ps), labels).outbox[q])
  {
    Brokers.StartsEmpty(ps);
    Brokers.OnlySerializablePackets(Brokers.Init(ps), labels);
    assert Brokers.OutboxOk(Brokers.Run(Brokers.Init(ps), labels), q);
  }

  /** When the packets pushed to a connection's queue are those sent to it in a run of the broker,
      then, as long as the buffer has not been overrun, the bytes that have left are an initial
      part of these packets; they are all of them once the queue is at rest. */
  lemma OutboxReachesWire(ps: set<ProcessorId>, labels: seq<Brokers.Label>, q: ProcessorId,
      callers: set<SendQueues.CallerId>, buffer: Str, steps: seq<SendQueues.Label>)
    requires Brokers.CanRun(Brokers.Init(ps), labels) && q in Brokers.Run(Brokers.Init(ps), labels).outbox
    requires SendQueues.CanRun(SendQueues.Init(callers, buffer), steps)
    requires SendQueues.Run(SendQueues.Init(callers, buffer), steps).pushed
          == Brokers.Run(Brokers.Init(ps), labels).outbox[q]
    ensures var outbox := Brokers.Run(Brokers.Init(ps), labels).outbox[q];
      var t := SendQueues.Run(SendQueues.Init(callers, buffer), steps);
      !t.overrun ==>
        && t.wire <= WireAll(outbox)
        && (SendQueues.AtRest(t) ==> t.queue == [] && t.wire == WireAll(outbox))
  {
    OutboxSerializable(ps, labels, q);
    var t := SendQueues.Run(SendQueues.Init(callers, buffer), steps);
    if !t.overrun {
      SendQueues.InPushOrder(callers, buffer, steps);
      if SendQueues.AtRest(t) {
        SendQueues.NothingStranded(callers, buffer, steps);
      }
    }
  }
}
