/**
 * One session's aggregate. Each channel (weather, time left, track, duration, and the
 * start, pause-or-resume and end lifecycle channels) drops a value equal to the last one it
 * published and replays that last value to a subscriber that joins late. The merged
 * lifecycle channels feed the fold that sets the start and end times and the paused flag;
 * completion of the session's event stream sets Completed. Timestamps are DateTime ticks,
 * and 0 is the default DateTime.
 */
module Sessions {
  import opened Wrappers
  import opened Events

  /** A distinct-until-changed channel with its replay-one cache: the last value published and everything published. */
  datatype Channel = Channel(last: Option<Event>, published: seq<Event>)

  /** A channel that has published nothing. */
  const Silent: Channel := Channel(None, [])

  /** Whether a value gets through: it does unless it equals the last value published. */
  predicate Passes(ch: Channel, e: Event) {
    ch.last.None? || !Same(ch.last.value, e)
  }

  /** No two consecutive published values are equal. */
  predicate NoRepeats(es: seq<Event>) {
    forall i :: 0 < i < |es| ==> !Same(es[i - 1], es[i])
  }

  /** The channel's invariant: the cache holds the last value published, and nothing repeats. */
  predicate Settled(ch: Channel) {
    (ch.last.None? <==> ch.published == []) &&
    (ch.last.Some? ==> ch.last.value == ch.published[|ch.published| - 1]) &&
    NoRepeats(ch.published)
  }

  /** One value offered to a channel: it is published and cached when it passes, and dropped otherwise. */
  function Offer(ch: Channel, e: Event): (r: Channel)
    ensures Settled(ch) ==> Settled(r)
    ensures Passes(ch, e) ==> r.published == ch.published + [e]
    ensures !Passes(ch, e) ==> r == ch
  {
    if Passes(ch, e) then Channel(Some(e), ch.published + [e]) else ch
  }

  /**
   * A stream of values offered to a channel in order: what was published stays published,
   * at most one value is added per value offered, and the invariant is kept.
   */
  function OfferAll(ch: Channel, es: seq<Event>): (r: Channel)
    ensures |ch.published| <= |r.published| <= |ch.published| + |es|
    ensures r.published[..|ch.published|] == ch.published
    ensures Settled(ch) ==> Settled(r)
    decreases |es|
  {
    if es == [] then ch else Offer(OfferAll(ch, es[..|es| - 1]), es[|es| - 1])
  }

  /**
   * The reference definition of the filter over a whole stream: keep each value unless it
   * equals the value received just before it.
   */
  function Kept(es: seq<Event>): (r: seq<Event>)
    ensures |r| <= |es|
    decreases |es|
  {
    if |es| <= 1 then es
    else Kept(es[..|es| - 1]) + if Same(es[|es| - 2], es[|es| - 1]) then [] else [es[|es| - 1]]
  }

  /**
   * Comparing with the last value published, as the channel does, keeps exactly what
   * comparing with the last value received keeps; the cache then holds a value equal to the
   * last one received.
   */
  lemma {:induction false} OfferAllIsKept(es: seq<Event>)
    ensures OfferAll(Silent, es).published == Kept(es)
    ensures es != [] ==> OfferAll(Silent, es).last.Some? && Same(OfferAll(Silent, es).last.value, es[|es| - 1])
    decreases |es|
  {
    if |es| == 1 {
      assert es[..0] == [];
      SameIsEquivalence(es[0], es[0], es[0]);
    } else if |es| > 1 {
      var front, e := es[..|es| - 1], es[|es| - 1];
      OfferAllIsKept(front);
      var ch := OfferAll(Silent, front);
      var p := front[|front| - 1];
      assert p == es[|es| - 2];
      SameIsEquivalence(ch.last.value, p, e);
      SameIsEquivalence(p, ch.last.value, e);
      SameIsEquivalence(e, e, e);
    }
  }

  /** Offering a stream to a fresh channel keeps the channel's invariant. */
  lemma {:induction false} OfferAllSettled(es: seq<Event>)
    ensures Settled(OfferAll(Silent, es))
    decreases |es|
  {
    if es != [] {
      OfferAllSettled(es[..|es| - 1]);
    }
  }

  /** What a subscriber that joins late receives at once: the cached value, if any. */
  function LateJoin(ch: Channel): (r: seq<Event>)
    ensures Settled(ch) ==> r == if ch.published == [] then [] else [ch.published[|ch.published| - 1]]
  {
    if ch.last.Some? then [ch.last.value] else []
  }

  /** A late subscriber gets exactly one value once anything was offered, and it equals the latest value offered. */
  lemma LateJoinSeesLatest(es: seq<Event>)
    requires es != []
    ensures |LateJoin(OfferAll(Silent, es))| == 1
    ensures Same(LateJoin(OfferAll(Silent, es))[0], es[|es| - 1])
  {
    OfferAllIsKept(es);
  }

  /** The channel an event goes to. */
  datatype Slot = WeatherSlot | TimeLeftSlot | TrackSlot | DurationSlot | StartSlot | PauseResumeSlot | EndSlot

  /** Events are split by class; pauses and resumes share one channel. */
  function SlotOf(e: Event): Slot {
    match e
    case WeatherInfo(_, _, _, _, _, _) => WeatherSlot
    case SessionTimeLeft(_, _, _, _) => TimeLeftSlot
    case TrackInfo(_, _, _, _, _) => TrackSlot
    case SessionDuration(_, _, _, _) => DurationSlot
    case SessionStart(_, _, _) => StartSlot
    case SessionPause(_, _, _) => PauseResumeSlot
    case SessionResume(_, _, _) => PauseResumeSlot
    case SessionEnd(_, _, _) => EndSlot
  }

  /** The events of a stream that go to one channel, in order. */
  function OnSlot(es: seq<Event>, slot: Slot): (r: seq<Event>)
    ensures forall i :: 0 <= i < |r| ==> SlotOf(r[i]) == slot
    decreases |es|
  {
    if es == [] then []
    else OnSlot(es[..|es| - 1], slot) + if SlotOf(es[|es| - 1]) == slot then [es[|es| - 1]] else []
  }

  /** The session's whole observable state. */
  datatype SessionState = SessionState(
    weather: Channel, timeLeft: Channel, track: Channel, duration: Channel,
    starts: Channel, pauseResumes: Channel, ends: Channel,
    lifecycle: seq<Event>, startTime: nat, endTime: nat, paused: bool, completed: bool)

  /** A new session: every channel silent, default times, not paused, not completed. */
  const Initial: SessionState :=
    SessionState(Silent, Silent, Silent, Silent, Silent, Silent, Silent, [], 0, 0, false, false)

  /** The channel of one slot. */
  function ChannelAt(st: SessionState, slot: Slot): Channel {
    match slot
    case WeatherSlot => st.weather
    case TimeLeftSlot => st.timeLeft
    case TrackSlot => st.track
    case DurationSlot => st.duration
    case StartSlot => st.starts
    case PauseResumeSlot => st.pauseResumes
    case EndSlot => st.ends
  }

  /**
   * The lifecycle fold's fields agree with the lifecycle channels: the start and end times
   * are those of the last start and end published, and the session is paused exactly when
   * the last pause-or-resume published is a pause.
   */
  predicate Folded(st: SessionState) {
    (st.startTime == if st.starts.last.Some? then st.starts.last.value.timeStamp else 0) &&
    (st.endTime == if st.ends.last.Some? then st.ends.last.value.timeStamp else 0) &&
    (st.paused <==> st.pauseResumes.last.Some? && st.pauseResumes.last.value.SessionPause?)
  }

  /** HandleLifecycle: a start sets StartTime, an end EndTime, a pause or resume the paused flag. */
  function HandleLifecycle(st: SessionState, le: Event): (r: SessionState)
    requires le.IsLifecycle()
    ensures r.lifecycle == st.lifecycle + [le]
    ensures r.weather == st.weather && r.timeLeft == st.timeLeft && r.track == st.track && r.duration == st.duration
    ensures r.starts == st.starts && r.pauseResumes == st.pauseResumes && r.ends == st.ends && r.completed == st.completed
  {
    var st := st.(lifecycle := st.lifecycle + [le]);
    match le
    case SessionStart(_, t, _) => st.(startTime := t)
    case SessionEnd(_, t, _) => st.(endTime := t)
    case SessionPause(_, _, _) => st.(paused := true)
    case SessionResume(_, _, _) => st.(paused := false)
  }

  /** The state with one slot's channel replaced. */
  function WithChannel(st: SessionState, slot: Slot, ch: Channel): (r: SessionState)
    ensures ChannelAt(r, slot) == ch
    ensures forall other :: other != slot ==> ChannelAt(r, other) == ChannelAt(st, other)
    ensures r.lifecycle == st.lifecycle && r.startTime == st.startTime && r.endTime == st.endTime
    ensures r.paused == st.paused && r.completed == st.completed
  {
    match slot
    case WeatherSlot => st.(weather := ch)
    case TimeLeftSlot => st.(timeLeft := ch)
    case TrackSlot => st.(track := ch)
    case DurationSlot => st.(duration := ch)
    case StartSlot => st.(starts := ch)
    case PauseResumeSlot => st.(pauseResumes := ch)
    case EndSlot => st.(ends := ch)
  }

  /**
   * One event reaching the session: it is offered to its channel, and a lifecycle event
   * that gets through reaches the fold. Nothing changes once the stream has completed.
   */
  function Step(st: SessionState, e: Event): (r: SessionState)
    ensures r.completed == st.completed
  {
    if st.completed then st
    else
      var slot := SlotOf(e);
      var moved := WithChannel(st, slot, Offer(ChannelAt(st, slot), e));
      if e.IsLifecycle() && Passes(ChannelAt(st, slot), e) then HandleLifecycle(moved, e) else moved
  }

  /**
   * Only the event's own channel changes, by the filter, and the lifecycle fold sees exactly
   * the lifecycle events that get through; the fold's fields keep agreeing with the channels.
   */
  lemma StepEffect(st: SessionState, e: Event)
    ensures st.completed ==> Step(st, e) == st
    ensures !st.completed ==> ChannelAt(Step(st, e), SlotOf(e)) == Offer(ChannelAt(st, SlotOf(e)), e)
    ensures forall slot :: slot != SlotOf(e) ==> ChannelAt(Step(st, e), slot) == ChannelAt(st, slot)
    ensures Step(st, e).lifecycle == st.lifecycle +
      if !st.completed && e.IsLifecycle() && Passes(ChannelAt(st, SlotOf(e)), e) then [e] else []
    ensures Folded(st) ==> Folded(Step(st, e))
  {
    if !st.completed {
      var slot := SlotOf(e);
      var moved := WithChannel(st, slot, Offer(ChannelAt(st, slot), e));
      if e.IsLifecycle() && Passes(ChannelAt(st, slot), e) {
        assert ChannelAt(moved, slot) == Channel(Some(e), ChannelAt(st, slot).published + [e]);
      }
    }
  }

  /** A stream of events reaching the session in order. */
  function Run(st: SessionState, es: seq<Event>): (r: SessionState)
    ensures r.completed == st.completed
    decreases |es|
  {
    if es == [] then st else Step(Run(st, es[..|es| - 1]), es[|es| - 1])
  }

  /** From a new session on, the fold's fields agree with the lifecycle channels. */
  lemma {:induction false} RunFolded(es: seq<Event>)
    ensures Folded(Run(Initial, es))
    decreases |es|
  {
    if es != [] {
      RunFolded(es[..|es| - 1]);
      StepEffect(Run(Initial, es[..|es| - 1]), es[|es| - 1]);
    }
  }

  /** Each channel of a running session is the filter applied to the events of its class. */
  lemma {:induction false} ChannelsFilter(es: seq<Event>, slot: Slot)
    ensures ChannelAt(Run(Initial, es), slot) == OfferAll(Silent, OnSlot(es, slot))
    decreases |es|
  {
    if es != [] {
      var front, e := es[..|es| - 1], es[|es| - 1];
      ChannelsFilter(front, slot);
      var before := Run(Initial, front);
      assert Run(Initial, es) == Step(before, e);
      assert !before.completed;
      StepEffect(before, e);
      var on := OnSlot(es, slot);
      if SlotOf(e) == slot {
        assert on == OnSlot(front, slot) + [e];
        assert on[..|on| - 1] == OnSlot(front, slot) && on[|on| - 1] == e;
        assert OfferAll(Silent, on) == Offer(OfferAll(Silent, OnSlot(front, slot)), e);
        assert ChannelAt(Step(before, e), slot) == Offer(ChannelAt(before, slot), e);
        assert ChannelAt(Run(Initial, es), slot) == OfferAll(Silent, on);
      } else {
        assert on == OnSlot(front, slot);
        assert ChannelAt(Step(before, e), slot) == ChannelAt(before, slot);
        assert ChannelAt(Run(Initial, es), slot) == OfferAll(Silent, on);
      }
    } else {
      assert ChannelAt(Initial, slot) == Silent;
    }
  }

  /** So each channel publishes exactly the events of its class that differ from the one received before. */
  lemma ChannelsAreDistinct(es: seq<Event>, slot: Slot)
    ensures ChannelAt(Run(Initial, es), slot).published == Kept(OnSlot(es, slot))
    ensures NoRepeats(ChannelAt(Run(Initial, es), slot).published)
  {
    ChannelsFilter(es, slot);
    OfferAllIsKept(OnSlot(es, slot));
    OfferAllSettled(OnSlot(es, slot));
  }

  /** A value received twice in a row on one channel is published once: Clear then Clear publishes one weather event. */
  lemma RepeatPublishedOnce(a: Event, b: Event)
    requires SlotOf(a) == SlotOf(b) && Same(a, b)
    ensures ChannelAt(Run(Initial, [a, b]), SlotOf(a)).published == [a]
  {
    ChannelsAreDistinct([a, b], SlotOf(a));
    assert [a, b][..1] == [a] && [a][..0] == [];
    assert OnSlot([a], SlotOf(a)) == [a];
    assert OnSlot([a, b], SlotOf(a)) == [a, b];
  }

  /** Pauses and resumes share one channel, so pause, resume, pause are all published, and the session ends paused. */
  lemma PauseResumePauseAllPublish(p: Event, r: Event, q: Event)
    requires p.SessionPause? && r.SessionResume? && q.SessionPause?
    ensures ChannelAt(Run(Initial, [p, r, q]), PauseResumeSlot).published == [p, r, q]
    ensures Run(Initial, [p, r, q]).paused
  {
    var es := [p, r, q];
    assert OnSlot(es, PauseResumeSlot) == es by {
      assert es[..2] == [p, r] && [p, r][..1] == [p] && [p][..0] == [];
      assert OnSlot([p], PauseResumeSlot) == [p];
      assert OnSlot([p, r], PauseResumeSlot) == [p, r];
    }
    assert Kept(es) == es by {
      assert es[..2] == [p, r] && [p, r][..1] == [p];
      assert Kept([p, r]) == [p, r];
    }
    ChannelsAreDistinct(es, PauseResumeSlot);
    PausedFollowsLast(es);
  }

  /** Paused follows the last pause or resume received, whether or not the filter dropped it. */
  lemma PausedFollowsLast(es: seq<Event>)
    requires OnSlot(es, PauseResumeSlot) != []
    ensures Run(Initial, es).paused <==> OnSlot(es, PauseResumeSlot)[|OnSlot(es, PauseResumeSlot)| - 1].SessionPause?
  {
    var prs := OnSlot(es, PauseResumeSlot);
    ChannelsFilter(es, PauseResumeSlot);
    RunFolded(es);
    OfferAllIsKept(prs);
    SameClass(OfferAll(Silent, prs).last.value, prs[|prs| - 1]);
  }

  /** Starts that all carry the session's id: after the first one, each equals its predecessor. */
  lemma {:induction false} SameIdStartsKeepFirst(starts: seq<Event>, id: nat)
    requires starts != []
    requires forall i :: 0 <= i < |starts| ==> starts[i].SessionStart? && starts[i].sessionId == id
    ensures Kept(starts) == [starts[0]]
    decreases |starts|
  {
    if |starts| > 1 {
      SameIdStartsKeepFirst(starts[..|starts| - 1], id);
    }
  }

  /** Starts of one session: the start channel publishes only the first and keeps it cached. */
  lemma StartChannelKeepsFirst(es: seq<Event>, id: nat)
    requires OnSlot(es, StartSlot) != []
    requires forall i :: 0 <= i < |es| && es[i].SessionStart? ==> es[i].sessionId == id
    ensures ChannelAt(Run(Initial, es), StartSlot).published == [OnSlot(es, StartSlot)[0]]
    ensures ChannelAt(Run(Initial, es), StartSlot).last == Some(OnSlot(es, StartSlot)[0])
  {
    var starts := OnSlot(es, StartSlot);
    StartsOfSession(es, id);
    SameIdStartsKeepFirst(starts, id);
    OfferAllIsKept(starts);
    OfferAllSettled(starts);
    ChannelsFilter(es, StartSlot);
  }

  /** A repeated start of the same session is dropped, so StartTime keeps the first start's timestamp. */
  lemma FirstStartWins(es: seq<Event>, id: nat)
    requires OnSlot(es, StartSlot) != []
    requires forall i :: 0 <= i < |es| && es[i].SessionStart? ==> es[i].sessionId == id
    ensures Run(Initial, es).startTime == OnSlot(es, StartSlot)[0].timeStamp
  {
    StartChannelKeepsFirst(es, id);
    RunFolded(es);
    var st := Run(Initial, es);
    assert st.starts == ChannelAt(st, StartSlot);
  }

  /** The starts of a stream are starts of the session the stream's starts name. */
  lemma {:induction false} StartsOfSession(es: seq<Event>, id: nat)
    requires forall i :: 0 <= i < |es| && es[i].SessionStart? ==> es[i].sessionId == id
    ensures forall i :: 0 <= i < |OnSlot(es, StartSlot)| ==>
      OnSlot(es, StartSlot)[i].SessionStart? && OnSlot(es, StartSlot)[i].sessionId == id
    decreases |es|
  {
    if es != [] {
      StartsOfSession(es[..|es| - 1], id);
    }
  }

  /** What a late subscriber to the merged lifecycle channels gets: the last start, pause-or-resume and end, in that order. */
  function LateJoinLifecycle(st: SessionState): (r: seq<Event>)
    ensures |r| <= 3
  {
    LateJoin(st.starts) + LateJoin(st.pauseResumes) + LateJoin(st.ends)
  }

  /**
   * A late lifecycle subscriber of a session that has seen a start, a pause or resume and an
   * end gets three events: one equal to the latest start, one to the latest pause or resume,
   * one to the latest end.
   */
  lemma LateJoinLifecycleLatest(es: seq<Event>)
    requires OnSlot(es, StartSlot) != [] && OnSlot(es, PauseResumeSlot) != [] && OnSlot(es, EndSlot) != []
    ensures var r, ss, ps, ns := LateJoinLifecycle(Run(Initial, es)),
      OnSlot(es, StartSlot), OnSlot(es, PauseResumeSlot), OnSlot(es, EndSlot);
      |r| == 3 && Same(r[0], ss[|ss| - 1]) && Same(r[1], ps[|ps| - 1]) && Same(r[2], ns[|ns| - 1])
  {
    var st, ss, ps, ns := Run(Initial, es), OnSlot(es, StartSlot), OnSlot(es, PauseResumeSlot), OnSlot(es, EndSlot);
    LateJoinOnSlot(es, StartSlot);
    LateJoinOnSlot(es, PauseResumeSlot);
    LateJoinOnSlot(es, EndSlot);
    LateJoinLifecycleOf(st, ss[|ss| - 1], ps[|ps| - 1], ns[|ns| - 1]);
  }

  /** The merged late join is the three channels' late joins in order. */
  lemma LateJoinLifecycleOf(st: SessionState, s: Event, p: Event, n: Event)
    requires |LateJoin(ChannelAt(st, StartSlot))| == 1 && Same(LateJoin(ChannelAt(st, StartSlot))[0], s)
    requires |LateJoin(ChannelAt(st, PauseResumeSlot))| == 1 && Same(LateJoin(ChannelAt(st, PauseResumeSlot))[0], p)
    requires |LateJoin(ChannelAt(st, EndSlot))| == 1 && Same(LateJoin(ChannelAt(st, EndSlot))[0], n)
    ensures var r := LateJoinLifecycle(st); |r| == 3 && Same(r[0], s) && Same(r[1], p) && Same(r[2], n)
  {
    var a, b, c := LateJoin(st.starts), LateJoin(st.pauseResumes), LateJoin(st.ends);
    assert (a + b + c)[0] == a[0] && (a + b + c)[1] == b[0] && (a + b + c)[2] == c[0];
  }

  /** A late subscriber to one channel of a session that has seen events of its class gets the latest of them. */
  lemma LateJoinOnSlot(es: seq<Event>, slot: Slot)
    requires OnSlot(es, slot) != []
    ensures var r, os := LateJoin(ChannelAt(Run(Initial, es), slot)), OnSlot(es, slot);
      |r| == 1 && Same(r[0], os[|os| - 1])
  {
    ChannelsFilter(es, slot);
    LateJoinSeesLatest(OnSlot(es, slot));
  }

  /** The session object: the state above held in fields that its event handlers update in place. */
  class Session {
    const sessionId: nat
    var weather: Channel
    var timeLeft: Channel
    var track: Channel
    var duration: Channel
    var starts: Channel
    var pauseResumes: Channel
    var ends: Channel
    var lifecycle: seq<Event>
    var startTime: nat
    var endTime: nat
    var paused: bool
    var completed: bool

    /** The fields as one value. */
    function State(): SessionState
      reads this
    {
      SessionState(weather, timeLeft, track, duration, starts, pauseResumes, ends, lifecycle, startTime, endTime, paused, completed)
    }

    /** A session for one id, subscribed to its group before the group's first event. */
    constructor(sessionId: nat)
      ensures this.sessionId == sessionId && State() == Initial
    {
      this.sessionId := sessionId;
      weather, timeLeft, track, duration := Silent, Silent, Silent, Silent;
      starts, pauseResumes, ends := Silent, Silent, Silent;
      lifecycle := [];
      startTime, endTime := 0, 0;
      paused, completed := false, false;
    }

    /** One event of the session's group: offered to its channel; a lifecycle event that gets through reaches the fold. */
    method OnEvent(e: Event)
      modifies this
      ensures State() == Step(old(State()), e)
    {
      if completed {
        return;
      }
      var slot := SlotOf(e);
      var ch := ChannelAt(State(), slot);
      var passes := Passes(ch, e);
      SetChannel(slot, Offer(ch, e));
      if e.IsLifecycle() && passes {
        Handle(e);
      }
    }

    /** The channel of one slot takes its new value. */
    method SetChannel(slot: Slot, ch: Channel)
      modifies this
      ensures State() == WithChannel(old(State()), slot, ch)
    {
      match slot {
        case WeatherSlot => weather := ch;
        case TimeLeftSlot => timeLeft := ch;
        case TrackSlot => track := ch;
        case DurationSlot => duration := ch;
        case StartSlot => starts := ch;
        case PauseResumeSlot => pauseResumes := ch;
        case EndSlot => ends := ch;
      }
    }

    /** HandleLifecycle, the subscriber of the merged lifecycle channels. */
    method Handle(le: Event)
      requires le.IsLifecycle()
      modifies this
      ensures State() == HandleLifecycle(old(State()), le)
    {
      lifecycle := lifecycle + [le];
      match le {
        case SessionStart(_, t, _) => startTime := t;
        case SessionEnd(_, t, _) => endTime := t;
        case SessionPause(_, _, _) => paused := true;
        case SessionResume(_, _, _) => paused := false;
      }
    }

    /** The completion callback of the merged lifecycle channels. */
    method OnComplete()
      modifies this
      ensures State() == old(State()).(completed := true)
    {
      completed := true;
    }
  }
}
