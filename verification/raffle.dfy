/**
 * The raffle controller: one monitor per content area, keyed by area id.
 * It asks the platform for a page of rooms in each of the six areas, and in
 * each area puts a monitor on the first room that turns out to be live while
 * the area has none. When an area's monitor closes, only that area is
 * re-queried and re-populated.
 *
 * The platform's answers are inputs: each area's listing (or its failure)
 * and, for each listed room, the answer its liveness query gave, in the
 * order those answers arrive.
 */
module Raffle {
  import opened Wrappers
  import opened Controller

  type AreaId = int

  /** The six content areas, in the order the platform's per-area answers come back. */
  const Areas: seq<AreaId> := [1, 2, 3, 4, 5, 6]
  /** Page and page size of the single-area query made when an area's monitor closes. */
  const RecoveryPage: nat := 10
  const RecoveryPageSize: nat := 10

  /** The answer of a liveness query: live, not live, or a failed query (logged and skipped). */
  datatype Liveness = Live | NotLive | LivenessFailed

  datatype Candidate = Candidate(room: RoomId, live: Liveness)

  /** One entry of an area listing; parentId 0 stands for a missing (falsy) parent_id. */
  datatype Listing = Listing(parentId: int, candidate: Candidate)

  /** The answer for one area: a failed request, or the rooms it lists. */
  datatype AreaAnswer = AreaFailed | AreaListed(entries: seq<Listing>)

  /** The room-discovery requests the controller makes. */
  datatype Request = RoomsInEachArea | RoomsInArea(area: AreaId, page: nat, pageSize: nat)

  /** The index of the first candidate reported live, if any. */
  function FirstLive(cands: seq<Candidate>): (r: Option<nat>)
    ensures r.Some? ==> r.value < |cands| && cands[r.value].live == Live
    ensures r.Some? ==> forall j :: 0 <= j < r.value ==> cands[j].live != Live
    ensures r.None? ==> forall j :: 0 <= j < |cands| ==> cands[j].live != Live
  {
    if cands == [] then None
    else match FirstLive(cands[..|cands| - 1])
      case Some(i) => Some(i)
      case None => if cands[|cands| - 1].live == Live then Some(|cands| - 1) else None
  }

  /**
   * setupMonitorInArea as a function of the registry: an area that has no
   * monitor gets one on its first live candidate; nothing else changes.
   */
  function InArea(conns: map<AreaId, Monitor>, area: AreaId, cands: seq<Candidate>): (r: map<AreaId, Monitor>)
    ensures area in conns ==> r == conns
    ensures area !in conns && FirstLive(cands).None? ==> r == conns
    ensures area !in conns && FirstLive(cands).Some? ==>
      r == conns[area := RaffleMonitor(cands[FirstLive(cands).value].room, area)]
    ensures forall k :: k != area ==> (k in r <==> k in conns) && (k in r ==> r[k] == conns[k])
  {
    if area in conns then conns
    else match FirstLive(cands)
      case None => conns
      case Some(i) => conns[area := RaffleMonitor(cands[i].room, area)]
  }

  /** entries[0].parent_id || areas[index]: the area an answer is filed under. */
  function AreaOf(entries: seq<Listing>, index: nat): (r: AreaId)
    requires |entries| > 0 && index < |Areas|
    ensures entries[0].parentId != 0 ==> r == entries[0].parentId
    ensures entries[0].parentId == 0 ==> r == index + 1
  {
    if entries[0].parentId != 0 then entries[0].parentId else Areas[index]
  }

  function Candidates(entries: seq<Listing>): (r: seq<Candidate>)
    ensures |r| == |entries| && forall i :: 0 <= i < |r| ==> r[i] == entries[i].candidate
  {
    seq(|entries|, i requires 0 <= i < |entries| => entries[i].candidate)
  }

  /** Handling the answer for the index-th area: a failed or empty listing changes nothing. */
  function AreaStep(conns: map<AreaId, Monitor>, answer: AreaAnswer, index: nat): (r: map<AreaId, Monitor>)
    requires index < |Areas|
    ensures answer.AreaFailed? || answer.entries == [] ==> r == conns
    ensures answer.AreaListed? && answer.entries != [] ==>
      r == InArea(conns, AreaOf(answer.entries, index), Candidates(answer.entries))
    ensures forall k :: k in conns ==> k in r && r[k] == conns[k]
  {
    match answer
    case AreaFailed => conns
    case AreaListed(entries) =>
      if entries == [] then conns
      else InArea(conns, AreaOf(entries, index), Candidates(entries))
  }

  /** The registry after the answers for the first |answers| areas, handled in area order. */
  function AreaRollout(conns: map<AreaId, Monitor>, answers: seq<AreaAnswer>): (r: map<AreaId, Monitor>)
    requires |answers| <= |Areas|
    ensures forall k :: k in conns ==> k in r && r[k] == conns[k]
    decreases |answers|
  {
    if answers == [] then conns
    else AreaStep(AreaRollout(conns, answers[..|answers| - 1]), answers[|answers| - 1], |answers| - 1)
  }

  /** Some answer names area k and lists a room reported live. */
  ghost predicate Offers(answers: seq<AreaAnswer>, k: AreaId)
    requires |answers| <= |Areas|
  {
    exists i :: 0 <= i < |answers| && answers[i].AreaListed? && answers[i].entries != []
      && AreaOf(answers[i].entries, i) == k && FirstLive(Candidates(answers[i].entries)).Some?
  }

  /**
   * The rollout over all areas keeps every existing monitor, and a new monitor
   * appears only under an area that some answer named and offered a live room for.
   */
  lemma {:induction false} AreaRolloutEffect(conns: map<AreaId, Monitor>, answers: seq<AreaAnswer>)
    requires |answers| <= |Areas|
    ensures forall k :: k in conns ==> k in AreaRollout(conns, answers) && AreaRollout(conns, answers)[k] == conns[k]
    ensures forall k :: k in AreaRollout(conns, answers) && k !in conns ==>
      AreaRollout(conns, answers)[k].RaffleMonitor? && AreaRollout(conns, answers)[k].area == k && Offers(answers, k)
    decreases |answers|
  {
    if answers != [] {
      var n := |answers| - 1;
      var init := answers[..n];
      AreaRolloutEffect(conns, init);
      var before := AreaRollout(conns, init);
      forall k | k in AreaRollout(conns, answers) && k !in conns
        ensures AreaRollout(conns, answers)[k].RaffleMonitor? && AreaRollout(conns, answers)[k].area == k
        ensures Offers(answers, k)
      {
        if k in before {
          var i :| 0 <= i < |init| && init[i].AreaListed? && init[i].entries != []
            && AreaOf(init[i].entries, i) == k && FirstLive(Candidates(init[i].entries)).Some?;
          assert answers[i] == init[i];
        } else {
          assert answers[n].AreaListed? && answers[n].entries != [] && AreaOf(answers[n].entries, n) == k;
        }
      }
    }
  }

  /** The index-th answer names area k and lists a room reported live. */
  ghost predicate OffersAt(answers: seq<AreaAnswer>, i: nat, k: AreaId)
    requires i < |answers| <= |Areas|
  {
    answers[i].AreaListed? && answers[i].entries != []
      && AreaOf(answers[i].entries, i) == k && FirstLive(Candidates(answers[i].entries)).Some?
  }

  /** The room of the first live candidate of an answer that offers one. */
  function OfferedRoom(answer: AreaAnswer): RoomId
    requires answer.AreaListed? && FirstLive(Candidates(answer.entries)).Some?
  {
    Candidates(answer.entries)[FirstLive(Candidates(answer.entries)).value].room
  }

  /** Every area that some answer names and lists a live room for ends up monitored. */
  lemma {:induction false} OfferedIsMonitored(conns: map<AreaId, Monitor>, answers: seq<AreaAnswer>, k: AreaId)
    requires |answers| <= |Areas| && Offers(answers, k)
    ensures k in AreaRollout(conns, answers)
    decreases |answers|
  {
    var n := |answers| - 1;
    var init := answers[..n];
    var i :| 0 <= i < |answers| && answers[i].AreaListed? && answers[i].entries != []
      && AreaOf(answers[i].entries, i) == k && FirstLive(Candidates(answers[i].entries)).Some?;
    if i < n {
      assert init[i] == answers[i];
      OfferedIsMonitored(conns, init, k);
    }
  }

  /**
   * An area without a monitor gets it on the first live room of the first answer
   * that offers the area; later answers naming the same area change nothing.
   */
  lemma {:induction false} FirstOfferWins(conns: map<AreaId, Monitor>, answers: seq<AreaAnswer>, i: nat, k: AreaId)
    requires i < |answers| <= |Areas| && k !in conns
    requires OffersAt(answers, i, k)
    requires forall j :: 0 <= j < i ==> !OffersAt(answers, j, k)
    ensures k in AreaRollout(conns, answers)
    ensures AreaRollout(conns, answers)[k] == RaffleMonitor(OfferedRoom(answers[i]), k)
    decreases |answers|
  {
    var n := |answers| - 1;
    var init := answers[..n];
    if i < n {
      forall j | 0 <= j <= i
        ensures OffersAt(init, j, k) == OffersAt(answers, j, k)
      {
        assert init[j] == answers[j];
      }
      FirstOfferWins(conns, init, i, k);
    } else {
      forall j | 0 <= j < |init|
        ensures !(init[j].AreaListed? && init[j].entries != []
          && AreaOf(init[j].entries, j) == k && FirstLive(Candidates(init[j].entries)).Some?)
      {
        assert init[j] == answers[j];
        assert !OffersAt(answers, j, k);
      }
      AreaRolloutEffect(conns, init);
    }
  }

  class RaffleController {
    var connections: map<AreaId, Monitor>
    var roomWaitList: seq<RoomId>
    var running: bool
    /** Events emitted to the orchestration layer, oldest first. */
    var emitted: seq<Event>
    /** Room ids handed to the discovery feed's enqueue, oldest first. */
    var enqueued: seq<RoomId>
    /** Room-discovery requests made to the platform, oldest first. */
    var requests: seq<Request>

    /** Every area's monitor is a raffle monitor for that area. */
    ghost predicate Valid()
      reads this
    {
      forall a :: a in connections ==> connections[a].RaffleMonitor? && connections[a].area == a
    }

    constructor ()
      ensures Valid()
      ensures connections == map[] && roomWaitList == [] && !running
      ensures emitted == [] && enqueued == [] && requests == []
    {
      connections := map[];
      roomWaitList := [];
      running := false;
      emitted := [];
      enqueued := [];
      requests := [];
    }

    /** Starts the discovery feed the first time, then (on every call) queries all areas. */
    method Run(answers: seq<AreaAnswer>)
      requires Valid() && |answers| == |Areas|
      modifies this
      ensures Valid()
      ensures running
      ensures connections == AreaRollout(old(connections), answers)
      ensures requests == old(requests) + [RoomsInEachArea]
      ensures roomWaitList == old(roomWaitList) && emitted == old(emitted) && enqueued == old(enqueued)
    {
      if !running {
        running := true;
      }
      SetupMonitor(answers);
    }

    /** A guard, gift or pk event from the discovery feed, which run() wired to the output. */
    method ForwardFeedEvent(e: Event)
      requires running && IsFeedEvent(e)
      modifies this`emitted
      ensures emitted == old(emitted) + [e]
    {
      emitted := emitted + [e];
    }

    /** Closes every monitor without its close handler and empties the registry. */
    method Close()
      requires Valid()
      modifies this`connections
      ensures Valid()
      ensures connections == map[]
    {
      connections := map[];
    }

    /** The inherited updateRooms: records the wait list and queries all areas again. */
    method UpdateRooms(rooms: seq<RoomId>, answers: seq<AreaAnswer>)
      requires Valid() && |answers| == |Areas|
      modifies this`roomWaitList, this`connections, this`requests
      ensures Valid()
      ensures roomWaitList == Pending(rooms, old(connections).Keys)
      ensures connections == AreaRollout(old(connections), answers)
      ensures requests == old(requests) + [RoomsInEachArea]
    {
      roomWaitList := Pending(rooms, connections.Keys);
      SetupMonitor(answers);
    }

    /** One listing request for all areas; each answer is handled in area order. */
    method SetupMonitor(answers: seq<AreaAnswer>)
      requires Valid() && |answers| == |Areas|
      modifies this`connections, this`requests
      ensures Valid()
      ensures connections == AreaRollout(old(connections), answers)
      ensures requests == old(requests) + [RoomsInEachArea]
    {
      requests := requests + [RoomsInEachArea];
      var index := 0;
      while index < |answers|
        invariant 0 <= index <= |answers|
        invariant Valid()
        invariant connections == AreaRollout(old(connections), answers[..index])
        invariant requests == old(requests) + [RoomsInEachArea]
      {
        assert answers[..index + 1][..index] == answers[..index];
        var answer := answers[index];
        if answer.AreaListed? && answer.entries != [] {
          SetupMonitorInArea(AreaOf(answer.entries, index), Candidates(answer.entries));
        }
        index := index + 1;
      }
      assert answers[..|answers|] == answers;
    }

    /**
     * Walks the candidates' liveness answers in arrival order and registers a
     * monitor on the first live room while the area has none.
     */
    method SetupMonitorInArea(area: AreaId, cands: seq<Candidate>)
      requires Valid()
      modifies this`connections
      ensures Valid()
      ensures connections == InArea(old(connections), area, cands)
    {
      var i := 0;
      while i < |cands|
        invariant 0 <= i <= |cands|
        invariant Valid()
        invariant connections == InArea(old(connections), area, cands[..i])
      {
        assert cands[..i + 1][..i] == cands[..i];
        if cands[i].live == Live && area !in connections {
          connections := connections[area := RaffleMonitor(cands[i].room, area)];
        }
        i := i + 1;
      }
      assert cands[..|cands|] == cands;
    }

    /**
     * Re-queries one page of rooms in this area only and re-populates it;
     * a failed query (recovered == None) leaves the area unmonitored.
     */
    method RecoverArea(area: AreaId, recovered: Option<seq<Candidate>>)
      requires Valid()
      modifies this`connections, this`requests
      ensures Valid()
      ensures requests == old(requests) + [RoomsInArea(area, RecoveryPage, RecoveryPageSize)]
      ensures recovered.None? ==> connections == old(connections)
      ensures recovered.Some? ==> connections == InArea(old(connections), area, recovered.value)
    {
      requests := requests + [RoomsInArea(area, RecoveryPage, RecoveryPageSize)];
      if recovered.Some? {
        SetupMonitorInArea(area, recovered.value);
      }
    }

    /** The close handler of an area's monitor: unregisters the area, then recovers it. */
    method OnMonitorClose(area: AreaId, recovered: Option<seq<Candidate>>)
      requires Valid() && area in connections
      modifies this`connections, this`requests
      ensures Valid()
      ensures requests == old(requests) + [RoomsInArea(area, RecoveryPage, RecoveryPageSize)]
      ensures forall k :: k != area ==> (k in connections <==> k in old(connections))
      ensures forall k :: k != area && k in connections ==> connections[k] == old(connections)[k]
      ensures recovered.None? ==> connections == old(connections) - {area}
      ensures recovered.Some? ==> connections == InArea(old(connections) - {area}, area, recovered.value)
    {
      connections := connections - {area};
      RecoverArea(area, recovered);
    }

    /** A room id reported by an area's monitor goes to the discovery feed. */
    method OnRoomDiscovered(area: AreaId, discovered: RoomId)
      requires area in connections
      modifies this`enqueued
      ensures enqueued == old(enqueued) + [discovered]
    {
      enqueued := enqueued + [discovered];
    }

    /** A storm from an area's monitor is re-emitted unchanged. */
    method OnStorm(area: AreaId, payload: Payload)
      requires area in connections
      modifies this`emitted
      ensures emitted == old(emitted) + [Storm(payload)]
    {
      emitted := emitted + [Storm(payload)];
    }
  }
}
