/** Validated sensor messages, as they leave the protocol parser. */
module Messages {

  datatype NodeKind = Physical | Virtual

  datatype SequenceStatus = First | InOrder | Gap | Duplicate | OutOfOrder | Reset

  datatype Message =
    | Reading(nodeId: string, kind: NodeKind, sequence: nat, timestampMs: nat,
              temperature: real, humidity: real, pressure: real)
    | Heartbeat(nodeId: string, kind: NodeKind, sequence: nat, timestampMs: nat)

  /** A message annotated at the gateway's receive boundary. */
  datatype Received = Received(message: Message, receivedAtMs: nat, monotonicNs: nat,
                               wireBytes: nat, status: SequenceStatus)

  predicate Alphanumeric(c: char) {
    'A' <= c <= 'Z' || 'a' <= c <= 'z' || '0' <= c <= '9'
  }

  predicate ValidNodeId(id: string) {
    && 1 <= |id| <= 64
    && Alphanumeric(id[0])
    && forall i | 1 <= i < |id| :: Alphanumeric(id[i]) || id[i] in {'_', '.', '-'}
  }

  predicate ValidMessage(m: Message) {
    && ValidNodeId(m.nodeId)
    && (m.Reading? ==>
          && -100.0 <= m.temperature <= 100.0
          && 0.0 <= m.humidity <= 100.0
          && 0.0 < m.pressure <= 1200.0)
  }
}
