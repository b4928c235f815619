/**
 * The session manager: it groups the published events by session id, each group lasting
 * until its first session end, creates one session per group, records every session it
 * created under its id (a later session of the same id overwrites the earlier one) and
 * replays the list of created sessions to every subscriber. Delivery is modelled as one
 * call per event, in arrival order.
 */
module SessionManagers {
  import opened Events
  import opened Sessions

  /** One group: its session id and the events routed to it, in order. */
  datatype Group = Group(sessionId: nat, events: seq<Event>)

  /**
   * The grouping so far: the ids whose latest group is still open, the index of each id's
   * latest group, and every group created, in creation order.
   */
  datatype Grouping = Grouping(open: set<nat>, latest: map<nat, nat>, groups: seq<Group>)

  /** Nothing routed yet. */
  const NoGroups: Grouping := Grouping({}, map[], [])

  /** A group ends with a session end once it is closed. */
  predicate Ends(grp: Group) {
    grp.events != [] && grp.events[|grp.events| - 1].SessionEnd?
  }

  /** A group's events are its session's, and only the last can be a session end. */
  predicate GroupOk(grp: Group) {
    grp.events != [] &&
    (forall i :: 0 <= i < |grp.events| ==> grp.events[i].sessionId == grp.sessionId) &&
    (forall i :: 0 <= i < |grp.events| - 1 ==> !grp.events[i].SessionEnd?)
  }

  /**
   * The grouping's invariant: every group is well formed; each id's latest group is the last
   * one created for it; and a group is still open exactly when it is its id's latest group,
   * the id is open, and it has not ended.
   */
  predicate Sound(g: Grouping) {
    g.open <= g.latest.Keys &&
    (forall id {:trigger LatestOk(g, id)} :: id in g.latest ==> LatestOk(g, id)) &&
    (forall k {:trigger GroupSound(g, k)} :: 0 <= k < |g.groups| ==> GroupSound(g, k))
  }

  /** An id's latest group is one of its own. */
  predicate LatestOk(g: Grouping, id: nat)
    requires id in g.latest
  {
    g.latest[id] < |g.groups| && g.groups[g.latest[id]].sessionId == id
  }

  /**
   * One group is well formed, no later than its id's latest group, and still open exactly
   * when it is its id's latest group, the id is open, and it has not ended.
   */
  predicate GroupSound(g: Grouping, k: nat)
    requires k < |g.groups|
  {
    var grp := g.groups[k];
    GroupOk(grp) && grp.sessionId in g.latest && k <= g.latest[grp.sessionId] &&
    (Ends(grp) <==> !(grp.sessionId in g.open && g.latest[grp.sessionId] == k))
  }

  /**
   * GroupByUntil for one event: it joins its id's open group, or opens a new group when the
   * id has none; a session end closes the group it joined.
   */
  function Route(g: Grouping, e: Event): (r: Grouping)
    requires Sound(g)
    ensures e.sessionId in g.open ==> r.latest == g.latest && |r.groups| == |g.groups| && g.latest[e.sessionId] < |g.groups|
    ensures e.sessionId !in g.open ==> r.latest == g.latest[e.sessionId := |g.groups|] && |r.groups| == |g.groups| + 1
    ensures r.open == if e.SessionEnd? then g.open - {e.sessionId} else g.open + {e.sessionId}
  {
    var id := e.sessionId;
    if id in g.open then
      assert LatestOk(g, id);
      var k := g.latest[id];
      Grouping(if e.SessionEnd? then g.open - {id} else g.open, g.latest, g.groups[k := Group(id, g.groups[k].events + [e])])
    else
      Grouping(if e.SessionEnd? then g.open else g.open + {id}, g.latest[id := |g.groups|], g.groups + [Group(id, [e])])
  }

  /**
   * Routing keeps the grouping sound: the event lands at the end of its id's latest group,
   * which is a new group exactly when the id had none open, and every other group is untouched.
   */
  lemma RouteSound(g: Grouping, e: Event)
    requires Sound(g)
    ensures Sound(Route(g, e))
    ensures Route(g, e).groups[Route(g, e).latest[e.sessionId]] ==
      Group(e.sessionId, (if e.sessionId in g.open then g.groups[g.latest[e.sessionId]].events else []) + [e])
    ensures forall k :: 0 <= k < |g.groups| && k != Route(g, e).latest[e.sessionId] ==> Route(g, e).groups[k] == g.groups[k]
  {
    var r, id := Route(g, e), e.sessionId;
    if id in g.open {
      assert LatestOk(g, id);
    }
    var k := r.latest[id];
    RoutedGroupSound(g, e);
    forall j | 0 <= j < |r.groups| && j != k
      ensures GroupSound(r, j)
    {
      assert GroupSound(g, j);
      assert r.groups[j] == g.groups[j];
      assert g.groups[j].sessionId in g.latest;
      if g.groups[j].sessionId != id {
        assert LatestOk(g, g.groups[j].sessionId);
      }
    }
    forall other | other in r.latest
      ensures LatestOk(r, other)
    {
      if other != id {
        assert LatestOk(g, other);
      }
    }
  }

  /** The group the event lands in is well formed, and closed exactly when the event is a session end. */
  lemma RoutedGroupSound(g: Grouping, e: Event)
    requires Sound(g)
    ensures var r := Route(g, e);
      e.sessionId in r.latest && r.latest[e.sessionId] < |r.groups| && GroupSound(r, r.latest[e.sessionId])
  {
    var r, id := Route(g, e), e.sessionId;
    var k := r.latest[id];
    if id in g.open {
      assert LatestOk(g, id) && GroupSound(g, k);
      var old_events := g.groups[k].events;
      assert !Ends(g.groups[k]);
      assert forall i :: 0 <= i < |old_events| ==> !old_events[i].SessionEnd?;
      assert GroupOk(r.groups[k]);
    } else {
      assert GroupOk(r.groups[k]) by {
        assert r.groups[k].events == [e];
      }
    }
  }

  /** A stream of events routed in order from an empty grouping. */
  function GroupAll(es: seq<Event>): (r: Grouping)
    ensures Sound(r)
    decreases |es|
  {
    if es == [] then NoGroups
    else
      var g := GroupAll(es[..|es| - 1]);
      RouteSound(g, es[|es| - 1]);
      Route(g, es[|es| - 1])
  }

  /** Grouping one more event routes it into the grouping of the ones before. */
  lemma GroupAllOneMore(es: seq<Event>, e: Event)
    ensures GroupAll(es + [e]) == Route(GroupAll(es), e)
  {
    assert (es + [e])[..|es|] == es;
  }

  /** The number of events routed to a run of groups. */
  function Routed(groups: seq<Group>): nat
    decreases |groups|
  {
    if groups == [] then 0 else Routed(groups[..|groups| - 1]) + |groups[|groups| - 1].events|
  }

  /** Adding one event to one group adds one to the count. */
  lemma {:induction false} RoutedOneMore(groups: seq<Group>, k: nat, e: Event)
    requires k < |groups|
    ensures Routed(groups[k := Group(groups[k].sessionId, groups[k].events + [e])]) == Routed(groups) + 1
    decreases |groups|
  {
    var updated := groups[k := Group(groups[k].sessionId, groups[k].events + [e])];
    var n := |groups| - 1;
    if k < n {
      RoutedOneMore(groups[..n], k, e);
      assert updated[..n] == groups[..n][k := Group(groups[k].sessionId, groups[k].events + [e])];
    } else {
      assert updated[..n] == groups[..n];
    }
  }

  /** Every event reaches exactly one session: the groups hold as many events as were routed. */
  lemma {:induction false} EveryEventRoutedOnce(es: seq<Event>)
    ensures Routed(GroupAll(es).groups) == |es|
    decreases |es|
  {
    if es != [] {
      var front, e := es[..|es| - 1], es[|es| - 1];
      EveryEventRoutedOnce(front);
      var g := GroupAll(front);
      var r := Route(g, e);
      if e.sessionId in g.open {
        assert LatestOk(g, e.sessionId);
        RoutedOneMore(g.groups, g.latest[e.sessionId], e);
      } else {
        RouteSound(g, e);
        assert r.groups[..|g.groups|] == g.groups;
      }
    }
  }

  /** The session ids of a stream of events. */
  function IdsOf(es: seq<Event>): (ids: set<nat>)
    ensures forall i :: 0 <= i < |es| ==> es[i].sessionId in ids
    decreases |es|
  {
    if es == [] then {} else IdsOf(es[..|es| - 1]) + {es[|es| - 1].sessionId}
  }

  /** The ids with a group are exactly the ids of the events routed. */
  lemma {:induction false} GroupedIds(es: seq<Event>)
    ensures GroupAll(es).latest.Keys == IdsOf(es)
    decreases |es|
  {
    if es != [] {
      var front, e := es[..|es| - 1], es[|es| - 1];
      GroupedIds(front);
      var g := GroupAll(front);
      assert GroupAll(es) == Route(g, e);
      assert Route(g, e).latest.Keys == g.latest.Keys + {e.sessionId};
    }
  }

  /** What the manager's delivery of one event does to its session: the event, then completion on a session end. */
  function Deliver(st: SessionState, e: Event): (r: SessionState)
    ensures r.completed == (st.completed || e.SessionEnd?)
  {
    var next := Step(st, e);
    if e.SessionEnd? then next.(completed := true) else next
  }

  /** A group's events delivered in order to a new session. */
  function Delivered(es: seq<Event>): (r: SessionState)
    decreases |es|
  {
    if es == [] then Initial else Deliver(Delivered(es[..|es| - 1]), es[|es| - 1])
  }

  /** Delivering one more event to a group's session. */
  lemma DeliveredOneMore(es: seq<Event>, e: Event)
    ensures Delivered(es + [e]) == Deliver(Delivered(es), e)
  {
    assert (es + [e])[..|es|] == es;
  }

  /**
   * A session inside the manager is the session of its group's events: it has seen them all,
   * and it has completed exactly when the group has ended.
   */
  lemma {:induction false} DeliveredIsRun(es: seq<Event>)
    requires forall i :: 0 <= i < |es| - 1 ==> !es[i].SessionEnd?
    ensures Delivered(es) == Run(Initial, es).(completed := es != [] && es[|es| - 1].SessionEnd?)
    decreases |es|
  {
    if es != [] {
      var front := es[..|es| - 1];
      DeliveredIsRun(front);
      assert Run(Initial, front).completed == false;
    }
  }

  /** Each of a run of sessions holds the state its group's events give it. */
  ghost predicate Matches(states: seq<SessionState>, g: Grouping) {
    |states| == |g.groups| && forall k :: 0 <= k < |states| ==> MatchesAt(states, g, k)
  }

  /** The session at one index holds the state its group's events give it. */
  ghost predicate MatchesAt(states: seq<SessionState>, g: Grouping, k: nat)
    requires k < |states| && |states| == |g.groups|
  {
    states[k] == Delivered(g.groups[k].events)
  }

  /**
   * Routing an event changes one session's state: its id's latest session, new when the id had
   * no open group, receives the event, and every other session keeps its state.
   */
  lemma MatchesRoute(states: seq<SessionState>, before: seq<SessionState>, g: Grouping, e: Event, k: nat)
    requires Sound(g) && Matches(states, g) && k == Route(g, e).latest[e.sessionId]
    requires before == if e.sessionId in g.open then states else states + [Initial]
    ensures k < |before| && Matches(before[k := Deliver(before[k], e)], Route(g, e))
  {
    RouteSound(g, e);
    var r, id := Route(g, e), e.sessionId;
    var prior := if id in g.open then g.groups[k].events else [];
    if id in g.open {
      assert MatchesAt(states, g, k);
    }
    assert before[k] == Delivered(prior);
    DeliveredOneMore(prior, e);
    MatchesOthers(states, before, g, e, k);
    var after := before[k := Deliver(before[k], e)];
    forall j | 0 <= j < |after|
      ensures MatchesAt(after, r, j)
    {
      if j != k {
        assert MatchesAt(before, r, j);
      }
    }
  }

  /** The sessions other than the one the event reaches keep their groups' states. */
  lemma MatchesOthers(states: seq<SessionState>, before: seq<SessionState>, g: Grouping, e: Event, k: nat)
    requires Sound(g) && Matches(states, g) && k == Route(g, e).latest[e.sessionId]
    requires before == if e.sessionId in g.open then states else states + [Initial]
    ensures |before| == |Route(g, e).groups| && k < |before|
    ensures forall j :: 0 <= j < |before| && j != k ==> MatchesAt(before, Route(g, e), j)
  {
    RouteSound(g, e);
    var r := Route(g, e);
    forall j | 0 <= j < |before| && j != k
      ensures MatchesAt(before, r, j)
    {
      assert MatchesAt(states, g, j);
      assert r.groups[j] == g.groups[j];
    }
  }

  /** No session is created twice. */
  ghost predicate Distinct(ss: seq<Session>)
    decreases |ss|
  {
    ss == [] || (Distinct(ss[..|ss| - 1]) && ss[|ss| - 1] !in ss[..|ss| - 1])
  }

  /** Two places of a list without repeats hold different sessions. */
  lemma {:induction false} DistinctApart(ss: seq<Session>, i: nat, j: nat)
    requires Distinct(ss) && i < |ss| && j < |ss| && i != j
    ensures ss[i] != ss[j]
    decreases |ss|
  {
    var n := |ss| - 1;
    if i < n && j < n {
      DistinctApart(ss[..n], i, j);
    } else if i == n {
      assert ss[j] == ss[..n][j];
    } else {
      assert ss[i] == ss[..n][i];
    }
  }

  /** The sessions created carry their groups' ids, one session per group. */
  ghost predicate Tagged(created: seq<Session>, g: Grouping) {
    |created| == |g.groups| &&
    forall k {:trigger TaggedAt(created, g, k)} :: 0 <= k < |created| ==> TaggedAt(created, g, k)
  }

  /** The session at one index carries its group's id. */
  ghost predicate TaggedAt(created: seq<Session>, g: Grouping, k: nat)
    requires k < |created| && |created| == |g.groups|
  {
    created[k].sessionId == g.groups[k].sessionId
  }

  /** The map holds each id's latest session. */
  ghost predicate Latest(sessions: map<nat, Session>, created: seq<Session>, g: Grouping) {
    sessions.Keys == g.latest.Keys &&
    forall id {:trigger LatestAt(sessions, created, g, id)} :: id in sessions ==> LatestAt(sessions, created, g, id)
  }

  /** One id's entry in the map is its latest session. */
  ghost predicate LatestAt(sessions: map<nat, Session>, created: seq<Session>, g: Grouping, id: nat)
    requires id in sessions
  {
    id in g.latest && g.latest[id] < |created| && sessions[id] == created[g.latest[id]]
  }

  /** The open map holds the session of each open group. */
  ghost predicate Opened(open: map<nat, Session>, created: seq<Session>, g: Grouping) {
    open.Keys == g.open &&
    forall id {:trigger OpenedAt(open, created, g, id)} :: id in open ==> OpenedAt(open, created, g, id)
  }

  /** One open id's entry is the session of its latest group. */
  ghost predicate OpenedAt(open: map<nat, Session>, created: seq<Session>, g: Grouping, id: nat)
    requires id in open
  {
    id in g.latest && g.latest[id] < |created| && open[id] == created[g.latest[id]]
  }

  /**
   * The manager's invariant over its values: the sessions created are the groups' sessions,
   * one each, each holding the state its group's events give it; the map holds each id's
   * latest session, and the open map each open group's.
   */
  ghost predicate Consistent(sessions: map<nat, Session>, open: map<nat, Session>, created: seq<Session>, states: seq<SessionState>, g: Grouping) {
    Sound(g) && Distinct(created) && Matches(states, g) && Tagged(created, g) && Latest(sessions, created, g) && Opened(open, created, g)
  }

  /** A new session joins the end of the list, tagged with its group's id. */
  lemma TaggedRoute(created: seq<Session>, g: Grouping, e: Event, s: Session)
    requires Sound(g) && Tagged(created, g)
    requires e.sessionId !in g.open ==> s.sessionId == e.sessionId
    ensures Tagged(if e.sessionId in g.open then created else created + [s], Route(g, e))
  {
    RouteSound(g, e);
    var id, r := e.sessionId, Route(g, e);
    var created' := if id in g.open then created else created + [s];
    var k := r.latest[id];
    if id in g.open {
      assert LatestOk(g, id) && TaggedAt(created, g, k);
    }
    forall j | 0 <= j < |created'|
      ensures TaggedAt(created', r, j)
    {
      if j != k {
        assert TaggedAt(created, g, j);
      }
    }
  }

  /** An id without an open group gets the new session in the map. */
  lemma LatestRoute(sessions: map<nat, Session>, created: seq<Session>, g: Grouping, e: Event, s: Session)
    requires Sound(g) && |created| == |g.groups| && Latest(sessions, created, g)
    ensures var id := e.sessionId;
      Latest(if id in g.open then sessions else sessions[id := s], if id in g.open then created else created + [s], Route(g, e))
  {
    var id, r := e.sessionId, Route(g, e);
    var sessions', created' := if id in g.open then sessions else sessions[id := s], if id in g.open then created else created + [s];
    forall x | x in sessions'
      ensures LatestAt(sessions', created', r, x)
    {
      if x != id || id in g.open {
        assert LatestAt(sessions, created, g, x);
      }
    }
  }

  /** The session the event reaches stays open unless the event is a session end. */
  lemma OpenedRoute(open: map<nat, Session>, created: seq<Session>, g: Grouping, e: Event, s: Session)
    requires Sound(g) && |created| == |g.groups| && Opened(open, created, g)
    requires e.sessionId in open ==> s == open[e.sessionId]
    ensures var id := e.sessionId;
      Opened(if e.SessionEnd? then open - {id} else open[id := s], if id in g.open then created else created + [s], Route(g, e))
  {
    var id, r := e.sessionId, Route(g, e);
    var open', created' := if e.SessionEnd? then open - {id} else open[id := s], if id in g.open then created else created + [s];
    forall x | x in open'
      ensures OpenedAt(open', created', r, x)
    {
      if x != id || id in g.open {
        assert OpenedAt(open, created, g, x);
      }
    }
  }

  /** Where the event's session sits in the list: at its open group's index, or just past the end. */
  lemma RoutedIndex(sessions: map<nat, Session>, open: map<nat, Session>, created: seq<Session>,
                    states: seq<SessionState>, g: Grouping, e: Event)
    requires Consistent(sessions, open, created, states, g)
    ensures var k := Route(g, e).latest[e.sessionId];
      (e.sessionId in open ==> k < |created| && created[k] == open[e.sessionId]) &&
      (e.sessionId !in open ==> k == |created|)
  {
    if e.sessionId in open {
      assert OpenedAt(open, created, g, e.sessionId);
    }
  }

  /**
   * Routing an event keeps the invariant: the event's session is its id's open one or a new
   * one at the end of the list; it receives the event; a session end closes its group.
   */
  lemma ConsistentRoute(sessions: map<nat, Session>, open: map<nat, Session>, created: seq<Session>,
                        states: seq<SessionState>, g: Grouping, e: Event, s: Session,
                        sessions': map<nat, Session>, open': map<nat, Session>, created': seq<Session>,
                        states': seq<SessionState>)
    requires Consistent(sessions, open, created, states, g)
    requires e.sessionId in open ==> s == open[e.sessionId] && sessions' == sessions && created' == created
    requires e.sessionId !in open ==>
      s.sessionId == e.sessionId && s !in created && sessions' == sessions[e.sessionId := s] && created' == created + [s]
    requires open' == if e.SessionEnd? then open - {e.sessionId} else open[e.sessionId := s]
    requires var before := if e.sessionId in open then states else states + [Initial];
      var k := Route(g, e).latest[e.sessionId];
      k < |before| && states' == before[k := Deliver(before[k], e)]
    ensures Consistent(sessions', open', created', states', Route(g, e))
    ensures e.sessionId in sessions' && sessions'[e.sessionId].sessionId == e.sessionId
  {
    var id, r := e.sessionId, Route(g, e);
    RouteSound(g, e);
    var k := r.latest[id];
    var before := if id in open then states else states + [Initial];
    MatchesRoute(states, before, g, e, k);
    if id in open {
      assert OpenedAt(open, created, g, id);
    } else {
      assert (created + [s])[..|created|] == created;
    }
    TaggedRoute(created, g, e, s);
    LatestRoute(sessions, created, g, e, s);
    OpenedRoute(open, created, g, e, s);
    assert LatestAt(sessions', created', r, id) && TaggedAt(created', r, k);
  }

  /** Under the manager's invariant, a session has completed exactly when its group has ended. */
  lemma CompletedExactlyWhenEnded(states: seq<SessionState>, g: Grouping, k: nat)
    requires Sound(g) && Matches(states, g) && k < |states|
    ensures states[k].completed <==> Ends(g.groups[k])
  {
    assert GroupSound(g, k) && MatchesAt(states, g, k);
    DeliveredIsRun(g.groups[k].events);
  }

  /** The open map holds, under each id, a session of that id. */
  lemma OpenTagged(open: map<nat, Session>, created: seq<Session>, g: Grouping, id: nat)
    requires Sound(g) && Tagged(created, g) && Opened(open, created, g) && id in open
    ensures open[id].sessionId == id
  {
    assert OpenedAt(open, created, g, id) && LatestOk(g, id);
    assert TaggedAt(created, g, g.latest[id]);
  }

  /** The open map holds exactly the sessions whose group has not ended. */
  lemma OpenExactlyUnended(open: map<nat, Session>, created: seq<Session>, g: Grouping, k: nat)
    requires Sound(g) && Distinct(created) && Tagged(created, g) && Opened(open, created, g) && k < |created|
    ensures created[k] in open.Values <==> !Ends(g.groups[k])
  {
    var id := g.groups[k].sessionId;
    assert GroupSound(g, k);
    if !Ends(g.groups[k]) {
      assert OpenedAt(open, created, g, id);
      assert open[id] == created[k];
    }
    if created[k] in open.Values {
      var j :| j in open && open[j] == created[k];
      assert OpenedAt(open, created, g, j) && LatestOk(g, j);
      if g.latest[j] != k {
        DistinctApart(created, g.latest[j], k);
      }
    }
  }

  /**
   * When the input completes, the sessions outside the open map have already completed,
   * and each open id maps to a session of its own id.
   */
  lemma OpenAtCompletion(sessions: map<nat, Session>, open: map<nat, Session>, created: seq<Session>, states: seq<SessionState>, g: Grouping)
    requires Consistent(sessions, open, created, states, g)
    ensures |states| == |created|
    ensures forall k :: 0 <= k < |created| && created[k] !in open.Values ==> states[k].completed
    ensures forall id :: id in open ==> open[id].sessionId == id
  {
    forall k | 0 <= k < |created| && created[k] !in open.Values
      ensures states[k].completed
    {
      OpenExactlyUnended(open, created, g, k);
      CompletedExactlyWhenEnded(states, g, k);
    }
    forall id | id in open
      ensures open[id].sessionId == id
    {
      OpenTagged(open, created, g, id);
    }
  }

  /** The manager: the id-to-session map, the sessions whose group is open, and every session created. */
  class SessionManager {
    var sessions: map<nat, Session>
    var open: map<nat, Session>
    var created: seq<Session>
    var sessionsCompleted: bool
    ghost var seen: seq<Event>

    /** The states of the sessions created, in order. */
    ghost function States(ss: seq<Session>): (r: seq<SessionState>)
      reads ss
      ensures |r| == |ss| && forall i {:trigger r[i]} :: 0 <= i < |ss| ==> r[i] == ss[i].State()
      decreases |ss|
    {
      if ss == [] then [] else States(ss[..|ss| - 1]) + [ss[|ss| - 1].State()]
    }

    /**
     * The manager's invariant: the sessions created are the groups of the events seen, one
     * each, each holding the state its group's events give it; the map holds each id's latest
     * session, and the open map each open group's.
     */
    ghost predicate Coherent()
      reads this, created
    {
      Consistent(sessions, open, created, States(created), GroupAll(seen))
    }

    /** SessionCount: the number of ids in the map. */
    function SessionCount(): nat
      reads this
    {
      |sessions.Keys|
    }

    /** A manager created before any event: no session yet. */
    constructor()
      ensures Coherent() && seen == [] && created == [] && SessionCount() == 0 && !sessionsCompleted
    {
      sessions, open, created := map[], map[], [];
      sessionsCompleted := false;
      seen := [];
    }

    /**
     * One published event: a new session when its id has no open group, recorded in the map
     * and in the replay list; the event reaches the session; a session end then completes it
     * and closes the group.
     */
    method OnEvent(e: Event)
      requires Coherent() && !sessionsCompleted
      modifies this, open.Values
      ensures Coherent() && seen == old(seen) + [e] && !sessionsCompleted
      ensures SessionCount() == |IdsOf(seen)|
      ensures |old(created)| <= |created| && created[..|old(created)|] == old(created)
      ensures e.sessionId in old(open) ==> created == old(created)
      ensures e.sessionId !in old(open) ==> |created| == |old(created)| + 1 && fresh(created[|old(created)|])
      ensures e.sessionId in sessions && sessions[e.sessionId].sessionId == e.sessionId
      ensures e.sessionId in open <==> !e.SessionEnd?
    {
      var id := e.sessionId;
      RoutedIndex(sessions, open, created, States(created), GroupAll(seen), e);
      var s := Admit(e);
      Forward(s, e, created, Route(GroupAll(old(seen)), e).latest[id], States(created));
      GroupAllOneMore(old(seen), e);
      ConsistentRoute(old(sessions), old(open), old(created), old(States(created)), GroupAll(old(seen)), e, s,
        sessions, open, created, States(created));
      GroupedIds(seen);
    }

    /**
     * The session an event goes to: its id's open one, or a new one recorded in the map and
     * at the end of the replay list. A session end closes the id's group; any other event
     * keeps it open.
     */
    method Admit(e: Event) returns (s: Session)
      requires Distinct(created)
      modifies this
      ensures e.sessionId in old(open) ==> s == old(open)[e.sessionId] && created == old(created) && sessions == old(sessions)
      ensures e.sessionId in old(open) ==> States(created) == old(States(created))
      ensures e.sessionId !in old(open) ==> fresh(s) && s.sessionId == e.sessionId && s !in old(created)
      ensures e.sessionId !in old(open) ==> created == old(created) + [s] && sessions == old(sessions)[e.sessionId := s]
      ensures e.sessionId !in old(open) ==> States(created) == old(States(created)) + [Initial]
      ensures open == if e.SessionEnd? then old(open) - {e.sessionId} else old(open)[e.sessionId := s]
      ensures seen == old(seen) + [e] && Distinct(created) && sessionsCompleted == old(sessionsCompleted)
      ensures |old(created)| <= |created| && created[..|old(created)|] == old(created)
    {
      var id := e.sessionId;
      if id in open {
        s := open[id];
      } else {
        s := new Session(id);
        created := created + [s];
        sessions := sessions[id := s];
        assert created[..|created| - 1] == old(created);
      }
      open, seen := if e.SessionEnd? then open - {id} else open[id := s], seen + [e];
    }

    /** The event reaches one session, and a session end then completes it; the other sessions keep their states. */
    method Forward(s: Session, e: Event, ghost ss: seq<Session>, ghost k: nat, ghost states: seq<SessionState>)
      requires k < |ss| && ss[k] == s && Distinct(ss) && states == States(ss)
      modifies s
      ensures k < |states| && States(ss) == states[k := Deliver(states[k], e)]
    {
      forall j | 0 <= j < |ss| && j != k
        ensures ss[j] != s
      {
        DistinctApart(ss, j, k);
      }
      s.OnEvent(e);
      if e.SessionEnd? {
        s.OnComplete();
      }
    }

    /**
     * The publisher's stream completing: GroupByUntil completes every group still open, so
     * each open session completes; the others completed at their session end. Then Sessions
     * completes. Afterwards no group is open, every session has completed, and nothing else
     * has changed.
     */
    method OnCompleted()
      requires Coherent() && !sessionsCompleted
      modifies this, open.Values
      ensures open == map[] && sessions == old(sessions) && created == old(created) && seen == old(seen) && sessionsCompleted
      ensures forall k :: 0 <= k < |created| ==> created[k].State() == old(created[k].State()).(completed := true)
    {
      ghost var states := States(created);
      OpenAtCompletion(sessions, open, created, states, GroupAll(seen));
      CompleteEach(open, created);
      open, sessionsCompleted := map[], true;
    }

    /**
     * Completes each session of an open map, one per id, and no other; when every session
     * of a list outside the map has already completed, the whole list has completed.
     */
    method CompleteEach(pending0: map<nat, Session>, ghost ss: seq<Session>)
      requires forall id :: id in pending0 ==> pending0[id].sessionId == id
      requires forall k :: 0 <= k < |ss| && ss[k] !in pending0.Values ==> ss[k].State().completed
      modifies pending0.Values
      ensures forall id :: id in pending0 ==> pending0[id].State() == old(pending0[id].State()).(completed := true)
      ensures forall k :: 0 <= k < |ss| ==> ss[k].State() == old(ss[k].State()).(completed := true)
    {
      var pending := pending0;
      while pending != map[]
        invariant pending.Keys <= pending0.Keys && forall id :: id in pending ==> pending[id] == pending0[id]
        invariant forall id :: id in pending ==> pending0[id].State() == old(pending0[id].State())
        invariant forall id :: id in pending0 && id !in pending ==> pending0[id].State() == old(pending0[id].State()).(completed := true)
        decreases pending.Keys
      {
        var id :| id in pending;
        pending0[id].OnComplete();
        pending := pending - {id};
      }
      forall k | 0 <= k < |ss|
        ensures ss[k].State() == old(ss[k].State()).(completed := true)
      {
        if ss[k] in pending0.Values {
          var id :| id in pending0 && pending0[id] == ss[k];
        }
      }
    }

    /** Sessions: what every subscriber receives, however late it subscribes: every session created, in order. */
    function Sessions(): (r: seq<Session>)
      reads this
      ensures |r| == |created|
    {
      created
    }
  }
}
