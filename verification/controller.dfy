/**
 * The guard room-monitor controllers. A controller keeps a registry
 * (connections) from room id to the monitor watching that room, the rooms
 * still to connect in this cycle (roomWaitList), a cooldown history of rooms
 * whose monitor closed (recentlyClosed) and a running flag.
 *
 * The fixed and the dynamic controller run the same staggered rollout and
 * differ only in the monitor they create, what a closing monitor triggers
 * and whether updateRooms arms the re-discovery timer; here they are one
 * class whose policy is chosen at construction.
 *
 * Monitors and the room-discovery feed are collaborators: what they report
 * (a close, a discovered room id, a guard purchase, a storm) reaches the
 * controller as a method call, and the controller's outward events are
 * appended to the emitted log.
 */
module Controller {

  type RoomId = int

  /** The rollout trims the cooldown history once it holds more than this many rooms... */
  const CooldownLimit: nat := 30
  /** ... down to its first (oldest) this many rooms. */
  const CooldownKeep: nat := 20

  datatype Monitor =
    | FixedGuardMonitor(room: RoomId)
    | GuardMonitor(room: RoomId)
    | RaffleMonitor(room: RoomId, area: int)

  /** Opaque payload of an event that a controller re-emits unchanged. */
  type Payload = string

  /** What a controller emits to the orchestration layer. */
  datatype Event =
    | Guard(payload: Payload)
    | Gift(payload: Payload)
    | Pk(payload: Payload)
    | Storm(payload: Payload)
    | AddToDb(room: RoomId)
    | AddFixed(room: RoomId)
    | GetNewRooms

  predicate IsFeedEvent(e: Event) {
    e.Guard? || e.Gift? || e.Pk?
  }

  predicate Distinct(s: seq<RoomId>) {
    forall i, j :: 0 <= i < j < |s| ==> s[i] != s[j]
  }

  /**
   * updateRooms' filter: the requested rooms that have no monitor yet,
   * in request order and with their repetitions.
   */
  function Pending(rooms: seq<RoomId>, established: set<RoomId>): (r: seq<RoomId>)
    ensures forall x :: x in r <==> x in rooms && x !in established
    ensures |r| <= |rooms|
  {
    if rooms == [] then []
    else (if rooms[0] in established then [] else [rooms[0]]) + Pending(rooms[1..], established)
  }

  /** Filtering a concatenation filters each part: the filter keeps input order. */
  lemma {:induction false} PendingAppend(a: seq<RoomId>, b: seq<RoomId>, established: set<RoomId>)
    ensures Pending(a + b, established) == Pending(a, established) + Pending(b, established)
  {
    if a != [] {
      assert (a + b)[0] == a[0];
      assert (a + b)[1..] == a[1..] + b;
      PendingAppend(a[1..], b, established);
    } else {
      assert a + b == b;
    }
  }

  /** Each room that has no monitor keeps all its repetitions; the others are dropped. */
  lemma {:induction false} PendingMultiplicity(rooms: seq<RoomId>, established: set<RoomId>, x: RoomId)
    ensures multiset(Pending(rooms, established))[x] == if x in established then 0 else multiset(rooms)[x]
  {
    if rooms != [] {
      PendingMultiplicity(rooms[1..], established, x);
      assert rooms == [rooms[0]] + rooms[1..];
    }
  }

  /** recentlyClosed.splice(20) once the history has grown past 30. */
  function TrimCooldown(closed: seq<RoomId>): (r: seq<RoomId>)
    ensures r <= closed
    ensures |r| <= CooldownLimit
    ensures |closed| <= CooldownLimit <==> r == closed
    ensures |closed| > CooldownLimit ==> |r| == CooldownKeep
  {
    if |closed| > CooldownLimit then closed[..CooldownKeep] else closed
  }

  /**
   * Trimming keeps the oldest entries, so when it happens the most recently
   * closed room (if it appears once) stops being suppressed.
   */
  lemma TrimForgetsNewest(closed: seq<RoomId>)
    requires |closed| > CooldownLimit && Distinct(closed)
    ensures closed[|closed| - 1] !in TrimCooldown(closed)
    ensures forall x :: x in TrimCooldown(closed) ==> x in closed
  {
    var r := TrimCooldown(closed);
    forall i | 0 <= i < |r|
      ensures r[i] != closed[|closed| - 1]
    {
      assert r[i] == closed[i];
    }
  }

  datatype GuardPolicy = Fixed | Dynamic

  /** The monitor a guard controller of this policy creates for a room. */
  function MonitorFor(policy: GuardPolicy, room: RoomId): (m: Monitor)
    ensures m.room == room && !m.RaffleMonitor?
  {
    match policy
    case Fixed => FixedGuardMonitor(room)
    case Dynamic => GuardMonitor(room)
  }

  /** One setupMonitorAtRoom: the registry after an attempt for room. */
  function Admit(conns: map<RoomId, Monitor>, closed: seq<RoomId>, policy: GuardPolicy, room: RoomId): (r: map<RoomId, Monitor>)
    ensures r.Keys == conns.Keys + (if room in closed then {} else {room})
    ensures forall k :: k in conns ==> r[k] == conns[k]
    ensures room in r && room !in conns ==> r[room] == MonitorFor(policy, room)
  {
    if room in closed || room in conns then conns else conns[room := MonitorFor(policy, room)]
  }

  /** The registry after the attempts for rooms, made one after the other in index order. */
  function Rollout(conns: map<RoomId, Monitor>, closed: seq<RoomId>, policy: GuardPolicy, rooms: seq<RoomId>): (r: map<RoomId, Monitor>)
    ensures conns.Keys <= r.Keys
    ensures forall k :: k in conns ==> r[k] == conns[k]
    decreases |rooms|
  {
    if rooms == [] then conns
    else Admit(Rollout(conns, closed, policy, rooms[..|rooms| - 1]), closed, policy, rooms[|rooms| - 1])
  }

  /**
   * A rollout adds a monitor for exactly the listed rooms that were neither
   * registered nor cooling down, and leaves every registered monitor as it was.
   */
  lemma {:induction false} RolloutEffect(conns: map<RoomId, Monitor>, closed: seq<RoomId>, policy: GuardPolicy, rooms: seq<RoomId>)
    ensures Rollout(conns, closed, policy, rooms).Keys == conns.Keys + (set x | x in rooms && x !in closed)
    ensures forall k :: k in conns ==> Rollout(conns, closed, policy, rooms)[k] == conns[k]
    ensures forall k :: k in Rollout(conns, closed, policy, rooms) && k !in conns ==>
      Rollout(conns, closed, policy, rooms)[k] == MonitorFor(policy, k)
    decreases |rooms|
  {
    if rooms != [] {
      var init := rooms[..|rooms| - 1];
      RolloutEffect(conns, closed, policy, init);
      assert rooms == init + [rooms[|rooms| - 1]];
      assert (set x | x in rooms && x !in closed)
          == (set x | x in init && x !in closed) + (if rooms[|rooms| - 1] in closed then {} else {rooms[|rooms| - 1]});
    }
  }

  /** Rooms in the cooldown history never gain a monitor from a rollout. */
  lemma CooldownSuppresses(conns: map<RoomId, Monitor>, closed: seq<RoomId>, policy: GuardPolicy, rooms: seq<RoomId>, room: RoomId)
    requires room in closed && room !in conns
    ensures room !in Rollout(conns, closed, policy, rooms)
  {
    RolloutEffect(conns, closed, policy, rooms);
  }

  class GuardController {
    const policy: GuardPolicy
    var connections: map<RoomId, Monitor>
    var roomWaitList: seq<RoomId>
    var recentlyClosed: seq<RoomId>
    var running: bool
    /** Events emitted to the orchestration layer, oldest first. */
    var emitted: seq<Event>
    /** Room ids handed to the discovery feed's enqueue, oldest first. */
    var enqueued: seq<RoomId>
    /** Re-discovery timers armed by updateRooms that have not fired yet. */
    var armedTimers: nat

    /**
     * Each registered room is watched by a monitor for that room, no room is
     * both registered and cooling down, and a room closes into the history at
     * most once while it stays there.
     */
    ghost predicate Valid()
      reads this
    {
      && (forall k :: k in connections ==> connections[k] == MonitorFor(policy, k))
      && (forall k :: k in connections ==> k !in recentlyClosed)
      && Distinct(recentlyClosed)
    }

    constructor (policy: GuardPolicy)
      ensures Valid()
      ensures this.policy == policy
      ensures connections == map[] && roomWaitList == [] && recentlyClosed == [] && !running
      ensures emitted == [] && enqueued == [] && armedTimers == 0
    {
      this.policy := policy;
      connections := map[];
      roomWaitList := [];
      recentlyClosed := [];
      running := false;
      emitted := [];
      enqueued := [];
      armedTimers := 0;
    }

    /** Starts the discovery feed and its forwarding the first time; later calls change nothing. */
    method Run()
      modifies this
      ensures running
      ensures old(running) ==> unchanged(this)
      ensures connections == old(connections) && roomWaitList == old(roomWaitList)
      ensures recentlyClosed == old(recentlyClosed) && emitted == old(emitted)
      ensures enqueued == old(enqueued) && armedTimers == old(armedTimers)
    {
      if !running {
        running := true;
      }
    }

    /** A guard, gift or pk event from the discovery feed, which run() wired to the output. */
    method ForwardFeedEvent(e: Event)
      requires running && IsFeedEvent(e)
      modifies this`emitted
      ensures emitted == old(emitted) + [e]
    {
      emitted := emitted + [e];
    }

    /** Closes every monitor without its close handler and empties the registry. */
    method Close()
      requires Valid()
      modifies this`connections
      ensures Valid()
      ensures connections == map[]
    {
      connections := map[];
    }

    /** The cycle's wait list, then the staggered rollout; the dynamic controller then arms its timer. */
    method UpdateRooms(rooms: seq<RoomId>)
      requires Valid()
      modifies this
      ensures Valid()
      ensures roomWaitList == Pending(rooms, old(connections).Keys)
      ensures !old(running) ==> connections == old(connections) && recentlyClosed == old(recentlyClosed)
      ensures old(running) ==> connections == Rollout(old(connections), old(recentlyClosed), policy, roomWaitList)
      ensures old(running) ==> recentlyClosed == TrimCooldown(old(recentlyClosed))
      ensures armedTimers == old(armedTimers) + (if policy == Dynamic then 1 else 0)
      ensures running == old(running) && emitted == old(emitted) && enqueued == old(enqueued)
    {
      roomWaitList := Pending(rooms, connections.Keys);
      SetupMonitor();
      if policy == Dynamic {
        armedTimers := armedTimers + 1;
      }
    }

    /**
     * The rollout: when running, one setupMonitorAtRoom per waiting room in index
     * order (the i-th starts i × 50 ms after the first), then the history trim.
     */
    method SetupMonitor()
      requires Valid()
      modifies this`connections, this`recentlyClosed
      ensures Valid()
      ensures !old(running) ==> connections == old(connections) && recentlyClosed == old(recentlyClosed)
      ensures old(running) ==> connections == Rollout(old(connections), old(recentlyClosed), policy, roomWaitList)
      ensures old(running) ==> recentlyClosed == TrimCooldown(old(recentlyClosed))
    {
      if !running {
        return;
      }
      var list := roomWaitList;
      var i := 0;
      while i < |list|
        invariant 0 <= i <= |list|
        invariant Valid()
        invariant recentlyClosed == old(recentlyClosed)
        invariant connections == Rollout(old(connections), old(recentlyClosed), policy, list[..i])
      {
        SetupMonitorAtRoom(list[i]);
        assert list[..i + 1][..i] == list[..i];
        i := i + 1;
      }
      assert list[..|list|] == list;
      recentlyClosed := TrimCooldown(recentlyClosed);
    }

    /** Registers a monitor for room unless the room is cooling down or already watched. */
    method SetupMonitorAtRoom(room: RoomId)
      requires Valid()
      modifies this`connections
      ensures Valid()
      ensures room in recentlyClosed || room in old(connections) ==> connections == old(connections)
      ensures room !in recentlyClosed && room !in old(connections) ==>
        connections == old(connections)[room := MonitorFor(policy, room)]
      ensures connections == Admit(old(connections), recentlyClosed, policy, room)
    {
      if room in recentlyClosed || room in connections {
        return;
      }
      connections := connections[room := MonitorFor(policy, room)];
    }

    /**
     * The close handler of the monitor for room: unregisters it and puts the room
     * in the cooldown history; a dynamic monitor that qualifies for permanent
     * tracking (its toFixed() answer) asks for the room to be moved to the fixed controller.
     */
    method OnMonitorClose(room: RoomId, toFixed: bool)
      requires Valid() && room in connections
      modifies this`connections, this`recentlyClosed, this`emitted
      ensures Valid()
      ensures connections == old(connections) - {room}
      ensures recentlyClosed == old(recentlyClosed) + [room]
      ensures emitted == old(emitted) + (if policy == Dynamic && toFixed then [AddFixed(room)] else [])
    {
      connections := connections - {room};
      recentlyClosed := recentlyClosed + [room];
      if policy == Dynamic && toFixed {
        emitted := emitted + [AddFixed(room)];
      }
    }

    /** A room id reported by the monitor for room goes to the discovery feed. */
    method OnRoomDiscovered(room: RoomId, discovered: RoomId)
      requires room in connections
      modifies this`enqueued
      ensures enqueued == old(enqueued) + [discovered]
    {
      enqueued := enqueued + [discovered];
    }

    /** A storm from the monitor for room is re-emitted unchanged. */
    method OnStorm(room: RoomId, payload: Payload)
      requires room in connections
      modifies this`emitted
      ensures emitted == old(emitted) + [Storm(payload)]
    {
      emitted := emitted + [Storm(payload)];
    }

    /** A guard purchase seen by a fixed monitor asks for its room to be stored; dynamic monitors have no such listener. */
    method OnGuard(room: RoomId)
      requires room in connections
      modifies this`emitted
      ensures emitted == old(emitted) + (if policy == Fixed then [AddToDb(room)] else [])
    {
      if policy == Fixed {
        emitted := emitted + [AddToDb(room)];
      }
    }

    /** The dynamic controller's re-discovery timer fires, whether or not the controller was closed. */
    method FireRediscoveryTimer()
      requires armedTimers > 0
      modifies this`emitted, this`armedTimers
      ensures armedTimers == old(armedTimers) - 1
      ensures emitted == old(emitted) + [GetNewRooms]
    {
      armedTimers := armedTimers - 1;
      emitted := emitted + [GetNewRooms];
    }
  }
}
