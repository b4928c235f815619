/**
 * Playback pacing: when packets are replayed from a file, the delay handler sleeps for
 * the session time that passed since the previous packet of the same session. The model
 * keeps the per-session last-time bookkeeping; whether the sleep throws is a parameter,
 * and its duration is left out. Session times are raw 32-bit float patterns.
 */
module DelayHandlers {
  import opened Wrappers
  import opened PacketHeaders
  import opened PacketFormats
  import opened EventPackets
  import opened Packets
  import opened Handlers

  /** The scale of the delay (a raw float pattern) and whether pacing is on. */
  class DelayScale {
    var scale: nat
    var enabled: bool

    /** A scale built from a float is disabled until Enabled is set. */
    constructor(scale: nat)
      ensures this.scale == scale && !enabled
    {
      this.scale := scale;
      enabled := false;
    }
  }

  /** The implicit conversion of a scale to a float. */
  function ToFloat(d: DelayScale): nat
    reads d
  {
    d.scale
  }

  /** The implicit conversion of a float to a scale: a new, disabled scale that converts back to the float. */
  method FromFloat(f: nat) returns (d: DelayScale)
    ensures fresh(d) && !d.enabled && ToFloat(d) == f
  {
    d := new DelayScale(f);
  }

  /** The session time the map is reset to by a session start: the pattern of 0.0f. */
  const ZeroTime: nat := 0

  /**
   * Whether the pacing sleep throws, given the scale and the session's last and new times
   * (raw float patterns). Thread.Sleep(TimeSpan.FromSeconds((now - last) * scale)) throws
   * for a NaN, an overflow, or a negative span other than -1 ms, which a session time
   * going backwards or a negative scale produces. The model leaves float arithmetic out,
   * so the outcome is a parameter.
   */
  type SleepThrows = (nat, nat, nat) -> bool

  /** A sleep that accepts every delay at this scale. */
  ghost predicate NeverThrows(throws: SleepThrows, scale: nat) {
    forall last, now :: !throws(scale, last, now)
  }

  /**
   * The last-times map after one handler call, or the exception the call raises. An event
   * packet resets (SSTA) or forgets (any other code) its session. Any other packet, when
   * it comes from a file and pacing is on, needs its session in the map. It then sleeps,
   * and only when the sleep returns does it record its session time there.
   */
  function Paced(times: map<nat, nat>, enabled: bool, scale: nat, throws: SleepThrows, c: Call): (r: Result<map<nat, nat>, Fault>)
    requires WellFormed(c)
    ensures r.Ok? ==> forall k :: k in times && k != SessionOf(c) ==> k in r.value && r.value[k] == times[k]
    ensures r.Ok? ==> forall k :: k in r.value && k != SessionOf(c) ==> k in times
    ensures c.kind == Event ==> r.Ok?
    ensures c.kind == Event && EventCode(c.packet) == StartCode ==>
      SessionOf(c) in r.value && r.value[SessionOf(c)] == ZeroTime
    ensures c.kind == Event && EventCode(c.packet) != StartCode ==> SessionOf(c) !in r.value
    ensures c.kind != Event && (c.source != File || !enabled) ==> r == Ok(times)
    ensures c.kind != Event && c.source == File && enabled ==>
      var id, now := SessionOf(c), c.packet.header.sessionTime;
      (r.Err? <==> id !in times || throws(scale, times[id], now)) &&
      (id !in times ==> r == Err(KeyNotFound(id))) &&
      (id in times && throws(scale, times[id], now) ==> r == Err(InvalidDelay)) &&
      (r.Ok? ==> r.value.Keys == times.Keys && r.value[id] == now)
  {
    var id := SessionOf(c);
    if c.kind == Event then
      if EventCode(c.packet) == StartCode then Ok(times[id := ZeroTime]) else Ok(times - {id})
    else if c.source != File || !enabled then Ok(times)
    else if id !in times then Err(KeyNotFound(id))
    else if throws(scale, times[id], c.packet.header.sessionTime) then Err(InvalidDelay)
    else Ok(times[id := c.packet.header.sessionTime])
  }

  /**
   * A stream of calls: the map after them all, and the exceptions raised in order (each
   * caught by the composite). The scale stays the same throughout.
   */
  function Replay(times: map<nat, nat>, enabled: bool, scale: nat, throws: SleepThrows, calls: seq<Call>): (r: (map<nat, nat>, seq<Fault>))
    requires forall i :: 0 <= i < |calls| ==> WellFormed(calls[i])
    ensures |r.1| <= |calls|
    decreases |calls|
  {
    if calls == [] then (times, [])
    else match Paced(times, enabled, scale, throws, calls[0])
      case Ok(next) => Replay(next, enabled, scale, throws, calls[1..])
      case Err(f) =>
        var rest := Replay(times, enabled, scale, throws, calls[1..]);
        (rest.0, [f] + rest.1)
  }

  /** Calls that are not event packets, all for session id. */
  predicate PacketsOf(id: nat, calls: seq<Call>) {
    forall i :: 0 <= i < |calls| ==> calls[i].kind != Event && SessionOf(calls[i]) == id && WellFormed(calls[i])
  }

  /**
   * Once a session is in the map, it stays there, and its non-event packets never raise
   * KeyNotFound: the only exceptions are rejected sleeps, and with a sleep that accepts
   * every delay there are none.
   */
  lemma {:induction false} TrackedSessionNeverFaults(times: map<nat, nat>, enabled: bool, scale: nat, throws: SleepThrows, id: nat, calls: seq<Call>)
    requires id in times && PacketsOf(id, calls)
    ensures id in Replay(times, enabled, scale, throws, calls).0
    ensures forall i :: 0 <= i < |Replay(times, enabled, scale, throws, calls).1| ==>
      Replay(times, enabled, scale, throws, calls).1[i] == InvalidDelay
    ensures NeverThrows(throws, scale) ==> Replay(times, enabled, scale, throws, calls).1 == []
  {
    if calls != [] {
      assert PacketsOf(id, calls[1..]) by {
        forall i | 0 <= i < |calls| - 1 ensures calls[1..][i] == calls[i + 1] { }
      }
      match Paced(times, enabled, scale, throws, calls[0])
      case Ok(next) =>
        TrackedSessionNeverFaults(next, enabled, scale, throws, id, calls[1..]);
      case Err(f) =>
        assert f == InvalidDelay;
        TrackedSessionNeverFaults(times, enabled, scale, throws, id, calls[1..]);
    }
  }

  /**
   * A recorded session replayed from its start event never raises KeyNotFound for its
   * later packets, and with a sleep that accepts every delay it raises nothing.
   */
  lemma StartedSessionNeverFaults(times: map<nat, nat>, enabled: bool, scale: nat, throws: SleepThrows, start: Call, calls: seq<Call>)
    requires start.kind == Event && WellFormed(start) && EventCode(start.packet) == StartCode
    requires PacketsOf(SessionOf(start), calls)
    ensures forall i :: 0 <= i < |[start] + calls| ==> WellFormed(([start] + calls)[i])
    ensures forall i :: 0 <= i < |Replay(times, enabled, scale, throws, [start] + calls).1| ==>
      Replay(times, enabled, scale, throws, [start] + calls).1[i] == InvalidDelay
    ensures NeverThrows(throws, scale) ==> Replay(times, enabled, scale, throws, [start] + calls).1 == []
  {
    var all := [start] + calls;
    assert all[0] == start && all[1..] == calls;
    TrackedSessionNeverFaults(Paced(times, enabled, scale, throws, start).value, enabled, scale, throws, SessionOf(start), calls);
  }

  /** The handler: the shared scale and the last session time seen per session id. */
  class DelayPacketHandler {
    const delayScale: DelayScale
    var lastTimes: map<nat, nat>

    constructor(delayScale: DelayScale)
      ensures this.delayScale == delayScale && lastTimes == map[]
    {
      this.delayScale := delayScale;
      lastTimes := map[];
    }

    /** OnPacketEventData: SSTA sets the session's last time to 0.0f, any other code removes it. */
    method OnPacketEventData(packet: Packet, source: PacketSource, throws: SleepThrows)
      requires Valid(EventFormat, packet)
      modifies this
      ensures Paced(old(lastTimes), delayScale.enabled, delayScale.scale, throws, Call(Event, packet, source)) == Ok(lastTimes)
    {
      if EventCode(packet) == StartCode {
        lastTimes := lastTimes[packet.header.sessionUid := ZeroTime];
      } else {
        lastTimes := lastTimes - {packet.header.sessionUid};
      }
    }

    /** The seven other On* methods: pace by the header's session id and session time. */
    method OnPacket(kind: PacketType, packet: Packet, source: PacketSource, throws: SleepThrows) returns (fault: Option<Fault>)
      requires kind != Event && Valid(FormatOf(kind), packet)
      modifies this
      ensures var r := Paced(old(lastTimes), delayScale.enabled, delayScale.scale, throws, Call(kind, packet, source));
        if r.Ok? then fault == None && lastTimes == r.value else fault == Some(r.error) && lastTimes == old(lastTimes)
    {
      fault := Delay(packet.header.sessionUid, packet.header.sessionTime, source, throws);
    }

    /**
     * Delay: nothing when the packet is live or pacing is off. Otherwise the indexer raises
     * for a session never started, and the sleep may throw; in both cases the map is left
     * alone. Only after a sleep that returns does the session's last time become sessionTime.
     */
    method Delay(sessionId: nat, sessionTime: nat, source: PacketSource, throws: SleepThrows) returns (fault: Option<Fault>)
      modifies this
      ensures source != File || !delayScale.enabled ==> fault == None && lastTimes == old(lastTimes)
      ensures source == File && delayScale.enabled && sessionId !in old(lastTimes) ==>
        fault == Some(KeyNotFound(sessionId)) && lastTimes == old(lastTimes)
      ensures source == File && delayScale.enabled && sessionId in old(lastTimes) ==>
        var last := old(lastTimes)[sessionId];
        if throws(delayScale.scale, last, sessionTime) then fault == Some(InvalidDelay) && lastTimes == old(lastTimes)
        else fault == None && lastTimes == old(lastTimes)[sessionId := sessionTime]
    {
      if source != File || !delayScale.enabled {
        return None;
      }
      if sessionId !in lastTimes {
        return Some(KeyNotFound(sessionId));
      }
      if throws(delayScale.scale, lastTimes[sessionId], sessionTime) {
        return Some(InvalidDelay);
      }
      lastTimes := lastTimes[sessionId := sessionTime];
      fault := None;
    }
  }
}
