/**
 * The older observable handler: an event packet becomes a start or end notification and a
 * session packet one bundled snapshot of the session's state, weather and track. Its
 * emissions are modelled as the returned sequence; the timestamp is a parameter.
 */
module ObservableHandlers {
  import opened Wrappers
  import opened PacketHeaders
  import opened PacketFormats
  import opened SessionPackets
  import opened EventPackets
  import opened Packets
  import opened Handlers
  import Events
  import SessionEventsHandlers

  /** The kind of a lifecycle notification. */
  datatype EventType = Start | End

  /** The session's flags and spans (as ticks). */
  datatype SessionState = SessionState(paused: bool, online: bool, spectating: bool, timeLeft: nat, duration: nat)

  /** The weather readings, copied as received. */
  datatype WeatherInfo = WeatherInfo(weather: nat, trackTemperature: int, airTemperature: int)

  /** The track and its length, copied as received. */
  datatype TrackInfo = TrackInfo(track: int, length: nat)

  /** What the handler publishes: a lifecycle notification, or one bundled session snapshot. */
  datatype Observed =
    | SessionEvent(eventType: EventType, sessionId: nat, timeStamp: nat, sessionTime: nat)
    | BundledSession(state: SessionState, weather: WeatherInfo, track: TrackInfo, sessionId: nat, timeStamp: nat, sessionTime: nat)

  /** The event type an event code stands for: SSTA a start, SEND an end; any other code throws. */
  function EventTypeOf(code: string): (r: Result<EventType, Fault>)
    ensures r == Ok(Start) <==> code == StartCode
    ensures r == Ok(End) <==> code == EndCode
    ensures r.Err? ==> r.error == InvalidSessionType(code)
  {
    if code == StartCode then Ok(Start)
    else if code == EndCode then Ok(End)
    else Err(InvalidSessionType(code))
  }

  /** OnPacketSessionData's snapshot: the three flags are the bytes compared with zero, the spans whole seconds. */
  function SnapshotOf(d: SessionData, now: nat): (o: Observed)
    ensures o.BundledSession?
    ensures o.state.paused <==> d.gamePaused != 0
    ensures o.state.online <==> d.networkGame != 0
    ensures o.state.spectating <==> d.isSpectating != 0
    ensures o.sessionId == d.header.sessionUid && o.timeStamp == now && o.sessionTime == d.header.sessionTime
  {
    var state := SessionState(d.gamePaused != 0, d.networkGame != 0, d.isSpectating != 0,
      Events.FromSeconds(d.sessionTimeLeft), Events.FromSeconds(d.sessionDuration));
    BundledSession(state, WeatherInfo(d.weather, d.trackTemperature, d.airTemperature),
      TrackInfo(d.trackId, d.trackLength), d.header.sessionUid, now, d.header.sessionTime)
  }

  /** The emissions of one handler call, or the exception it throws; only event and session packets emit. */
  function Emitted(c: Call, now: nat): (r: Result<seq<Observed>, Fault>)
    requires WellFormed(c)
    ensures c.kind != PacketType.Event && c.kind != PacketType.Session ==> r == Ok([])
    ensures c.kind == PacketType.Session ==> r == Ok([SnapshotOf(View(c.packet), now)])
    ensures c.kind == PacketType.Event ==>
      (r.Ok? <==> EventCode(c.packet) == StartCode || EventCode(c.packet) == EndCode)
    ensures c.kind == PacketType.Event && r.Ok? ==>
      |r.value| == 1 && r.value[0].SessionEvent? && r.value[0].sessionId == SessionOf(c) &&
      r.value[0].timeStamp == now && r.value[0].sessionTime == c.packet.header.sessionTime
    ensures r.Err? ==> c.kind == PacketType.Event && r.error == InvalidSessionType(EventCode(c.packet))
  {
    if c.kind == PacketType.Event then
      var h := c.packet.header;
      match EventTypeOf(EventCode(c.packet))
      case Ok(t) => Ok([SessionEvent(t, h.sessionUid, now, h.sessionTime)])
      case Err(f) => Err(f)
    else if c.kind == PacketType.Session then Ok([SnapshotOf(View(c.packet), now)])
    else Ok([])
  }

  /**
   * The two translators agree: for every call both throw or neither does, a start or end
   * notification matches the newer handler's lifecycle event, and the snapshot of a session
   * packet carries exactly the readings of the newer handler's five events.
   */
  lemma TranslatorsAgree(c: Call, now: nat)
    requires WellFormed(c)
    ensures Emitted(c, now).Ok? <==> SessionEventsHandlers.Emitted(c, now).Ok?
    ensures c.kind != PacketType.Session && Emitted(c, now).Ok? ==>
      |Emitted(c, now).value| == |SessionEventsHandlers.Emitted(c, now).value|
    ensures c.kind == PacketType.Event && Emitted(c, now).Ok? ==>
      var o, e := Emitted(c, now).value[0], SessionEventsHandlers.Emitted(c, now).value[0];
      (o.eventType == Start <==> e.SessionStart?) && o.sessionId == e.sessionId &&
      o.timeStamp == e.timeStamp && o.sessionTime == e.sessionTime
    ensures c.kind == PacketType.Session ==>
      var o, es := Emitted(c, now).value[0], SessionEventsHandlers.Emitted(c, now).value;
      o.weather == WeatherInfo(es[0].weather, es[0].trackTemperature, es[0].airTemperature) &&
      o.track == TrackInfo(es[1].track, es[1].length) && (o.state.paused <==> es[2].SessionPause?) &&
      o.state.duration == es[3].duration && o.state.timeLeft == es[4].timeLeft &&
      o.sessionId == es[0].sessionId && o.timeStamp == es[0].timeStamp && o.sessionTime == es[0].sessionTime
  {
  }
}
