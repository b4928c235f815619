/**
 * The session-events handler: it turns an event packet into one lifecycle event and a
 * session packet into five events, and ignores the six other packet types. What it
 * publishes on its observable is modelled as the returned sequence of events; the
 * timestamp it takes from the clock is a parameter.
 */
module SessionEventsHandlers {
  import opened Wrappers
  import opened Wire
  import opened PacketHeaders
  import opened PacketFormats
  import opened SessionPackets
  import opened EventPackets
  import opened Packets
  import opened Handlers
  import opened Events

  /** The event an event code stands for: SSTA a start, SEND an end; any other code throws. */
  function LifecycleOf(code: string, sessionId: nat, now: nat, sessionTime: nat): (r: Result<Event, Fault>)
    ensures r.Ok? <==> code == StartCode || code == EndCode
    ensures r.Err? ==> r.error == InvalidSessionType(code)
    ensures r.Ok? ==> r.value.sessionId == sessionId && r.value.timeStamp == now && r.value.sessionTime == sessionTime
  {
    if code == StartCode then Ok(SessionStart(sessionId, now, sessionTime))
    else if code == EndCode then Ok(SessionEnd(sessionId, now, sessionTime))
    else Err(InvalidSessionType(code))
  }

  /** The event code the game sends for a start or an end. */
  function CodeOf(e: Event): (code: string)
    requires e.SessionStart? || e.SessionEnd?
    ensures |code| == CodeLength
  {
    if e.SessionStart? then StartCode else EndCode
  }

  /** The translation inverts the game's encoding: the code of a start or an end translates back to that event. */
  lemma LifecycleRoundTrip(e: Event)
    requires e.SessionStart? || e.SessionEnd?
    ensures LifecycleOf(CodeOf(e), e.sessionId, e.timeStamp, e.sessionTime) == Ok(e)
  {
  }

  /**
   * OnPacketSessionData: weather, track, pause-or-resume, duration and time left, in that
   * order, all with the header's session id and session time and one timestamp.
   */
  function SessionEventsOf(d: SessionData, now: nat): (r: seq<Event>)
    ensures |r| == 5
    ensures r[0].WeatherInfo? && r[1].TrackInfo? && (r[2].SessionPause? || r[2].SessionResume?)
    ensures r[3].SessionDuration? && r[4].SessionTimeLeft?
    ensures forall i :: 0 <= i < |r| ==>
      r[i].sessionId == d.header.sessionUid && r[i].timeStamp == now && r[i].sessionTime == d.header.sessionTime
    ensures r[2].SessionPause? <==> d.gamePaused != 0
  {
    var id, time := d.header.sessionUid, d.header.sessionTime;
    [WeatherInfo(d.weather, d.trackTemperature, d.airTemperature, id, now, time),
     TrackInfo(d.trackId, d.trackLength, id, now, time),
     if d.gamePaused != 0 then SessionPause(id, now, time) else SessionResume(id, now, time),
     SessionDuration(FromSeconds(d.sessionDuration), id, now, time),
     SessionTimeLeft(FromSeconds(d.sessionTimeLeft), id, now, time)]
  }

  /**
   * The casts to Weather and Track keep the packet's ordinal: the weather event names an
   * enumerator exactly when the packet's byte is one of Weather's ordinals, and then the
   * one declared with that ordinal; likewise the track event for Track's ordinals.
   */
  lemma EventsNameEnumerators(d: SessionData, now: nat, w: Weather, t: Track)
    ensures var es := SessionEventsOf(d, now);
      (WeatherOf(es[0].weather).Some? <==> d.weather < 6) &&
      (d.weather < 6 ==> WeatherOrdinal(WeatherOf(es[0].weather).value) == d.weather) &&
      (d.weather == WeatherOrdinal(w) ==> WeatherOf(es[0].weather) == Some(w)) &&
      (TrackOf(es[1].track).Some? <==> -1 <= d.trackId <= 24) &&
      (-1 <= d.trackId <= 24 ==> TrackOrdinal(TrackOf(es[1].track).value) == d.trackId) &&
      (d.trackId == TrackOrdinal(t) ==> TrackOf(es[1].track) == Some(t))
  {
    var es := SessionEventsOf(d, now);
    assert es[0].weather == d.weather && es[1].track == d.trackId;
    WeatherOrdinals(w, d.weather);
    TrackOrdinalNamesTrack(t);
    if -1 <= d.trackId <= 24 {
      TrackNamedByOrdinal(d.trackId);
    }
  }

  /** The session readings a subscriber can recover from the five events, the spans in whole seconds. */
  datatype Readings = Readings(
    weather: nat, trackTemperature: int, airTemperature: int, track: int, length: nat,
    paused: bool, durationSeconds: nat, timeLeftSeconds: nat)

  /** The readings the packet holds, as the handler copies them (no range checks on enums or temperatures). */
  function ReadingsOf(d: SessionData): Readings {
    Readings(d.weather, d.trackTemperature, d.airTemperature, d.trackId, d.trackLength,
      d.gamePaused != 0, d.sessionDuration, d.sessionTimeLeft)
  }

  /** What a subscriber reads back from the five events. */
  function Recovered(es: seq<Event>): Readings
    requires |es| == 5 && es[0].WeatherInfo? && es[1].TrackInfo? && es[3].SessionDuration? && es[4].SessionTimeLeft?
  {
    Readings(es[0].weather, es[0].trackTemperature, es[0].airTemperature, es[1].track, es[1].length,
      es[2].SessionPause?, es[3].duration / TicksPerSecond, es[4].timeLeft / TicksPerSecond)
  }

  /** Nothing is lost in translation: every reading of the packet comes back out of its five events. */
  lemma NoReadingLost(d: SessionData, now: nat)
    ensures Recovered(SessionEventsOf(d, now)) == ReadingsOf(d)
  {
  }

  /**
   * The events of one handler call, or the exception it throws (before emitting anything).
   * Only event and session packets emit.
   */
  function Emitted(c: Call, now: nat): (r: Result<seq<Event>, Fault>)
    requires WellFormed(c)
    ensures c.kind != PacketType.Event && c.kind != PacketType.Session ==> r == Ok([])
    ensures c.kind == PacketType.Session ==> r == Ok(SessionEventsOf(View(c.packet), now))
    ensures c.kind == PacketType.Event ==>
      (r.Ok? <==> EventCode(c.packet) == StartCode || EventCode(c.packet) == EndCode)
    ensures c.kind == PacketType.Event && r.Ok? ==>
      |r.value| == 1 && r.value[0] == LifecycleOf(EventCode(c.packet), SessionOf(c), now, c.packet.header.sessionTime).value
    ensures r.Err? ==> c.kind == PacketType.Event && r.error == InvalidSessionType(EventCode(c.packet))
  {
    if c.kind == PacketType.Event then
      var h := c.packet.header;
      match LifecycleOf(EventCode(c.packet), h.sessionUid, now, h.sessionTime)
      case Ok(e) => Ok([e])
      case Err(f) => Err(f)
    else if c.kind == PacketType.Session then Ok(SessionEventsOf(View(c.packet), now))
    else Ok([])
  }

  /**
   * From the datagram's bytes: weather is byte 21, the temperatures bytes 22 and 23 and the
   * track byte 28 (signed), the length bytes 25 .. 26, the pause flag byte 35, the duration
   * bytes 32 .. 33 and the time left bytes 30 .. 31, both in seconds.
   */
  lemma SessionEventsFromBytes(s: seq<byte>, now: nat)
    requires |s| == TotalSize(SessionFormat)
    ensures |s| == 147
    ensures var es := SessionEventsOf(View(Read(SessionFormat, s)), now);
      es[0].weather == s[21] as nat &&
      es[0].trackTemperature == AsSigned8(s[22] as nat) && es[0].airTemperature == AsSigned8(s[23] as nat) &&
      es[1].track == AsSigned8(s[28] as nat) && es[1].length == DecodeUint(s[25..27]) &&
      (es[2].SessionPause? <==> s[35] != 0) &&
      es[3].duration == FromSeconds(DecodeUint(s[32..34])) && es[4].timeLeft == FromSeconds(DecodeUint(s[30..32]))
  {
    SessionTrackBytes(s);
    SessionStateBytes(s);
  }
}
