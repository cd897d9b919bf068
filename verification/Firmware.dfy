/**
 * The ESP32 node's send rule and reconnect backoff. The node keeps no queue: a
 * sample taken while disconnected is dropped, and a write that is not judged
 * successful leaves the sequence number to be reused.
 */
module Firmware {
  import opened Common
  import opened NodeProtocol
  import opened SequenceTracking

  const UINT32: nat := 0x1_0000_0000

  /** C++ uint32_t arithmetic: the product wraps. */
  function NextBackoffMs(current: nat, initial: nat, maximum: nat): nat {
    if initial == 0 || maximum < initial then 0
    else if current < initial then initial
    else if current >= maximum || current > maximum / 2 then maximum
    else
      var doubled := (current * 2) % UINT32;
      if doubled < maximum then doubled else maximum
  }

  /** The delay a capped doubling schedule prescribes for retry number `n`. */
  function CappedDelay(initial: nat, maximum: nat, n: nat): nat {
    if initial * Power2(n) < maximum then initial * Power2(n) else maximum
  }

  predicate ValidBackoff(initial: nat, maximum: nat) {
    0 < initial <= maximum < UINT32
  }

  /** The backoff variable after `n` consecutive failures; 0 means unset. */
  function BackoffAfter(initial: nat, maximum: nat, n: nat): nat
    decreases n, 0
  {
    if n == 0 then 0 else NextBackoffMs(RetryDelay(initial, maximum, n - 1), initial, maximum)
  }

  /** The delay before retry number `n`, counting from the last connection. */
  function RetryDelay(initial: nat, maximum: nat, n: nat): nat
    decreases n, 1
  {
    var backoff := BackoffAfter(initial, maximum, n);
    if backoff == 0 then initial else backoff
  }

  /** No product wraps: the schedule is capped doubling exactly. */
  lemma {:induction false} BackoffIsCappedDoubling(initial: nat, maximum: nat, n: nat)
    requires ValidBackoff(initial, maximum)
    ensures RetryDelay(initial, maximum, n) == CappedDelay(initial, maximum, n)
    ensures n > 0 ==> BackoffAfter(initial, maximum, n) == RetryDelay(initial, maximum, n)
  {
    if n > 0 {
      BackoffIsCappedDoubling(initial, maximum, n - 1);
      DoubledGrows(initial, n - 1);
      NextDoubles(RetryDelay(initial, maximum, n - 1), initial, maximum);
    }
  }

  /** One step of the coded rule doubles up to the cap, with no wrap-around. */
  lemma NextDoubles(current: nat, initial: nat, maximum: nat)
    requires ValidBackoff(initial, maximum) && initial <= current <= maximum
    ensures NextBackoffMs(current, initial, maximum)
         == if 2 * current < maximum then 2 * current else maximum
  {
    if current <= maximum / 2 {
      assert 2 * current < UINT32;
    }
  }

  lemma Octave(n: nat)
    ensures Power2(n + 8) == 0x100 * Power2(n)
  {
    assert Power2(n + 2) == 4 * Power2(n);
    assert Power2(n + 4) == 4 * Power2(n + 2);
    assert Power2(n + 6) == 4 * Power2(n + 4);
    assert Power2(n + 8) == 4 * Power2(n + 6);
  }

  lemma {:induction false} Power2Grows(n: nat)
    requires n >= 32
    ensures Power2(n) >= UINT32
  {
    if n == 32 {
      Octave(0);
      Octave(8);
      Octave(16);
      Octave(24);
    } else {
      Power2Grows(n - 1);
    }
  }

  lemma DoubledGrows(initial: nat, n: nat)
    requires initial > 0
    ensures initial <= initial * Power2(n) <= initial * Power2(n + 1) == 2 * (initial * Power2(n))
    ensures n >= 32 ==> initial * Power2(n) >= UINT32
  {
    if n >= 32 {
      Power2Grows(n);
    }
    AtLeast(initial, Power2(n));
    assert initial * (2 * Power2(n)) == 2 * (initial * Power2(n));
  }

  lemma AtLeast(x: nat, y: nat)
    requires x >= 1 && y >= 1
    ensures x * y >= x && x * y >= y
  {
  }

  /** Delays never decrease, and from the 32nd consecutive failure on they stay at the cap. */
  lemma BackoffSettles(initial: nat, maximum: nat, n: nat)
    requires ValidBackoff(initial, maximum)
    ensures RetryDelay(initial, maximum, n) <= RetryDelay(initial, maximum, n + 1)
    ensures n >= 32 ==> RetryDelay(initial, maximum, n) == maximum
  {
    BackoffIsCappedDoubling(initial, maximum, n);
    BackoffIsCappedDoubling(initial, maximum, n + 1);
    DoubledGrows(initial, n);
  }

  class PhysicalNode {
    const samplingIntervalMs: nat
    const sensorRetryMs: nat
    const reconnectInitialMs: nat
    const reconnectMaxMs: nat

    var sensorReady: bool
    var nextSampleMs: nat
    var nextSensorAttemptMs: nat
    var tcpWasConnected: bool
    var tcpBackoffMs: nat
    var nextTcpAttemptMs: nat
    var sequence: nat

    /** Every transmission of this boot, and failures since the last connection. */
    ghost var attempts: seq<Attempt>
    ghost var failures: nat

    ghost predicate Valid()
      reads this
    {
      && ValidBackoff(reconnectInitialMs, reconnectMaxMs)
      && sequence == Counter(attempts)
      && tcpBackoffMs == BackoffAfter(reconnectInitialMs, reconnectMaxMs, failures)
    }

    constructor (sampling: nat, sensorRetry: nat, initial: nat, maximum: nat)
      requires ValidBackoff(initial, maximum)
      ensures Valid() && attempts == [] && sequence == 0 && failures == 0 && !sensorReady
    {
      samplingIntervalMs, sensorRetryMs := sampling, sensorRetry;
      reconnectInitialMs, reconnectMaxMs := initial, maximum;
      sensorReady, nextSampleMs, nextSensorAttemptMs := false, 0, 0;
      tcpWasConnected, tcpBackoffMs, nextTcpAttemptMs, sequence := false, 0, 0, 0;
      attempts, failures := [], 0;
    }

    /** After n failures in a row the next attempt waits min(initial * 2^n, maximum). */
    method ScheduleTcpRetry(now: nat)
      requires Valid()
      modifies `tcpBackoffMs, `nextTcpAttemptMs, `failures
      ensures Valid()
      ensures failures == old(failures) + 1
      ensures nextTcpAttemptMs
           == now + CappedDelay(reconnectInitialMs, reconnectMaxMs, old(failures))
    {
      var delay := if tcpBackoffMs == 0 then reconnectInitialMs else tcpBackoffMs;
      nextTcpAttemptMs := now + delay;
      tcpBackoffMs := NextBackoffMs(delay, reconnectInitialMs, reconnectMaxMs);
      BackoffIsCappedDoubling(reconnectInitialMs, reconnectMaxMs, failures);
      failures := failures + 1;
    }

    method ServiceTcp(now: nat, wifiUp: bool, connected: bool, connectSucceeds: bool)
      requires Valid()
      modifies `tcpWasConnected, `tcpBackoffMs, `nextTcpAttemptMs, `nextSampleMs, `failures
      ensures Valid()
      ensures var tries := wifiUp && !connected && now >= old(nextTcpAttemptMs);
              var fails := tries && !connectSucceeds;
              var joins := (wifiUp && connected && !old(tcpWasConnected)) || (tries && connectSucceeds);
        && tcpWasConnected == (if wifiUp then connected || (tries && connectSucceeds)
                               else old(tcpWasConnected))
        && failures == (if fails then old(failures) + 1 else if joins then 0 else old(failures))
        && nextTcpAttemptMs == (if fails
             then now + CappedDelay(reconnectInitialMs, reconnectMaxMs, old(failures))
             else old(nextTcpAttemptMs))
        && nextSampleMs == (if joins then now else old(nextSampleMs))
    {
      if !wifiUp {
        return;
      }
      if connected {
        if !tcpWasConnected {
          tcpWasConnected, tcpBackoffMs, failures := true, 0, 0;
          nextSampleMs := now;
        }
        return;
      }
      tcpWasConnected := false;
      if now < nextTcpAttemptMs {
        return;
      }
      if connectSucceeds {
        tcpWasConnected, tcpBackoffMs, failures := true, 0, 0;
        nextSampleMs := now;
        return;
      }
      ScheduleTcpRetry(now);
    }

    /**
     * One pass of the sampling rule. `written` and `stillConnected` are what the
     * TCP stack reports; `delivered` is what really happened to the message.
     */
    method SampleAndMaybeSend(now: nat, readingValid: bool, connected: bool, payloadSize: nat,
                              written: nat, stillConnected: bool, ghost delivered: bool)
      returns (sent: Option<nat>)
      requires Valid()
      modifies `sensorReady, `nextSampleMs, `nextSensorAttemptMs, `tcpWasConnected,
               `tcpBackoffMs, `nextTcpAttemptMs, `sequence, `attempts, `failures
      ensures Valid()
      ensures var due := old(sensorReady) && now >= old(nextSampleMs);
              var transmits := due && readingValid && connected && payloadSize > 0;
              var judgedOk := written == payloadSize && stillConnected;
        && sensorReady == (old(sensorReady) && !(due && !readingValid))
        && nextSampleMs == (if due then now + samplingIntervalMs else old(nextSampleMs))
        && (transmits ==> sent == Some(Counter(old(attempts))))
        && (!transmits ==> sent == None)
        && attempts == old(attempts) + (if transmits then [Attempt(delivered, judgedOk)] else [])
        && failures == old(failures) + (if transmits && !judgedOk then 1 else 0)
        && tcpWasConnected == (old(tcpWasConnected) && !(transmits && !judgedOk))
        && nextTcpAttemptMs == (if transmits && !judgedOk
             then now + CappedDelay(reconnectInitialMs, reconnectMaxMs, old(failures))
             else old(nextTcpAttemptMs))
        && nextSensorAttemptMs == (if due && !readingValid then now + sensorRetryMs
                                   else old(nextSensorAttemptMs))
    {
      sent := None;
      if !sensorReady || now < nextSampleMs {
        return;
      }
      nextSampleMs := now + samplingIntervalMs;
      if !readingValid {
        sensorReady := false;
        nextSensorAttemptMs := now + sensorRetryMs;
        return;
      }
      if !connected || payloadSize == 0 {
        return;
      }
      sent := Some(sequence);
      Transmit(now, written == payloadSize && stillConnected, delivered);
    }

    /** One write, and what follows from how it is judged. */
    method Transmit(now: nat, judgedOk: bool, ghost delivered: bool)
      requires Valid()
      modifies `tcpWasConnected, `tcpBackoffMs, `nextTcpAttemptMs, `sequence, `attempts, `failures
      ensures Valid() && attempts == old(attempts) + [Attempt(delivered, judgedOk)]
      ensures tcpWasConnected == (old(tcpWasConnected) && judgedOk)
      ensures failures == old(failures) + (if judgedOk then 0 else 1)
      ensures nextTcpAttemptMs
           == if judgedOk then old(nextTcpAttemptMs)
              else now + CappedDelay(reconnectInitialMs, reconnectMaxMs, old(failures))
    {
      MarkWrite(judgedOk, delivered);
      if !judgedOk {
        tcpWasConnected := false;
        ScheduleTcpRetry(now);
      }
    }

    /** The sequence counter moves on exactly when the write was judged successful. */
    method MarkWrite(judgedOk: bool, ghost delivered: bool)
      requires Valid()
      modifies `sequence, `attempts
      ensures Valid() && attempts == old(attempts) + [Attempt(delivered, judgedOk)]
    {
      ghost var was := attempts;
      attempts := attempts + [Attempt(delivered, judgedOk)];
      assert attempts[..|was|] == was;
      if judgedOk && sequence != MAX_SEQUENCE {
        sequence := sequence + 1;
      }
    }

    /** A missing sensor is looked for again after the retry interval. */
    method ServiceSensor(now: nat, busReady: bool, detected: bool)
      requires Valid()
      modifies `sensorReady, `nextSensorAttemptMs
      ensures Valid()
      ensures var tries := busReady && !old(sensorReady) && now >= old(nextSensorAttemptMs);
        && sensorReady == (old(sensorReady) || (tries && detected))
        && nextSensorAttemptMs == (if tries then now + sensorRetryMs else old(nextSensorAttemptMs))
    {
      if busReady && !sensorReady {
        if now >= nextSensorAttemptMs {
          sensorReady := detected;
          nextSensorAttemptMs := now + sensorRetryMs;
        }
      }
    }

    /** Losing the Wi-Fi drops the connection and lets the next attempt be immediate. */
    method LoseWifi()
      requires Valid()
      modifies `tcpWasConnected, `nextTcpAttemptMs
      ensures Valid() && !tcpWasConnected && nextTcpAttemptMs == 0
    {
      tcpWasConnected, nextTcpAttemptMs := false, 0;
    }

    /** One pass of the cooperative loop. */
    method Loop(p: Pass) returns (arrived: Option<nat>)
      requires Valid()
      modifies this
      ensures Valid()
      ensures old(attempts) <= attempts && |attempts| <= |old(attempts)| + 1
      ensures Arrivals(attempts)
           == Arrivals(old(attempts)) + (if arrived.Some? then [arrived.value] else [])
    {
      ServiceSensor(p.now, p.busReady, p.detected);
      if p.wifiLost {
        LoseWifi();
      }
      ServiceTcp(p.now, p.wifiUp, p.connected, p.connectSucceeds);
      ghost var was := attempts;
      var sent := SampleAndMaybeSend(p.sampleAt, p.readingValid, p.canSend, p.payloadSize,
                                     p.written, p.stillConnected, p.delivered);
      arrived := if p.delivered then sent else None;
      if attempts != was {
        assert attempts[..|was|] == was;
      }
    }
  }

  /** What the hardware, the network stack and the channel do during one pass. */
  datatype Pass = Pass(now: nat, busReady: bool, detected: bool, wifiLost: bool, wifiUp: bool,
                       connected: bool, connectSucceeds: bool, sampleAt: nat, readingValid: bool,
                       canSend: bool, payloadSize: nat, written: nat, stillConnected: bool,
                       delivered: bool)

  /**
   * A boot of the node under any hardware and network behaviour: what arrives is
   * what its transmissions say, and the gateway's counters for it are exact.
   */
  method Drive(node: PhysicalNode, passes: seq<Pass>) returns (arrived: seq<nat>)
    requires node.Valid() && node.attempts == []
    modifies node
    ensures node.Valid() && arrived == Arrivals(node.attempts)
    ensures node.sequence == if Successes(node.attempts) < 0xFFFF_FFFF_FFFF_FFFF
                             then Successes(node.attempts) else 0xFFFF_FFFF_FFFF_FFFF
    ensures arrived != [] ==>
      var t := TallyOf(arrived);
      && t.missing == |Unseen(arrived)| && t.duplicates == RepeatsIn(arrived)
      && forall v | v in Unseen(arrived) :: LostEveryTime(node.attempts, v)
  {
    arrived := [];
    for i := 0 to |passes|
      invariant node.Valid() && arrived == Arrivals(node.attempts)
    {
      var one := node.Loop(passes[i]);
      if one.Some? {
        arrived := arrived + [one.value];
      }
    }
    CounterIsSuccesses(node.attempts);
    if arrived != [] {
      BootIsExact(node.attempts);
    }
  }
}
