/** Bounded waiting in the whole gateway: requests of all squads interleave. */
module SquadFairness {
  import opened Wrappers
  import opened Players
  import opened KingOfTheHill
  import HillFairness
  import opened SquadWorld

  /** The effective match ends of one squad in one request. */
  ghost function EndsNow(w: World, request: Request, squad: SquadId): nat {
    if Subject(w, request) == Some(squad) then HillFairness.Ends(HillOf(w, squad), HillEvent(w, request)) else 0
  }

  ghost function SquadEnds(w: World, requests: seq<Request>, squad: SquadId): nat
    decreases |requests|
  {
    if requests == [] then 0
    else EndsNow(w, requests[0], squad) + SquadEnds(SquadWorld.Step(w, requests[0]), requests[1..], squad)
  }

  /** The user leaves the squad's queue, or his socket closes while he is in it. */
  ghost predicate WithdrawnNow(w: World, request: Request, squad: SquadId, userId: string) {
    Subject(w, request) == Some(squad) && HillFairness.Withdraws(HillOf(w, squad), HillEvent(w, request), userId)
  }

  ghost predicate Withdrawn(w: World, requests: seq<Request>, squad: SquadId, userId: string)
    decreases |requests|
  {
    requests != [] &&
    (WithdrawnNow(w, requests[0], squad, userId) ||
     Withdrawn(SquadWorld.Step(w, requests[0]), requests[1..], squad, userId))
  }

  lemma SeatedMovesUp(h: Hill, ev: Event, before: RoomId, after: RoomId, i: nat)
    requires i < |h.queue| && !HillFairness.Withdraws(h, ev, h.queue[i].userId)
    ensures HillFairness.Ends(h, ev) <= 1
    ensures
      var h' := Seated(KingOfTheHill.Step(h, ev), before, after);
      InSlot(h', h.queue[i].userId) || HillFairness.WaitsAtMost(h', h.queue[i].userId, i - HillFairness.Ends(h, ev))
  {
    HillFairness.StepAdvances(h, ev, i);
    var next := KingOfTheHill.Step(h, ev);
    var h' := Seated(next, before, after);
    assert h'.queue == next.queue && h'.champion == next.champion && h'.challenger == next.challenger;
  }

  lemma StepOfSquad(w: World, request: Request, squad: SquadId)
    ensures HillOf(SquadWorld.Step(w, request), squad) ==
      if Subject(w, request) != Some(squad) then HillOf(w, squad)
      else Seated(KingOfTheHill.Step(HillOf(w, squad), HillEvent(w, request)), w.nextRoom,
        SquadWorld.Step(w, request).nextRoom)
  {
    StepIsHillStep(w, request);
  }

  lemma StepMovesUp(w: World, request: Request, h: Hill, h': Hill, squad: SquadId, i: nat)
    requires h == HillOf(w, squad) && h' == HillOf(SquadWorld.Step(w, request), squad)
    requires i < |h.queue| && !WithdrawnNow(w, request, squad, h.queue[i].userId)
    ensures EndsNow(w, request, squad) <= 1
    ensures InSlot(h', h.queue[i].userId)
         || HillFairness.WaitsAtMost(h', h.queue[i].userId, i - EndsNow(w, request, squad))
  {
    StepOfSquad(w, request, squad);
    if Subject(w, request) == Some(squad) {
      SeatedMovesUp(h, HillEvent(w, request), w.nextRoom, SquadWorld.Step(w, request).nextRoom, i);
    } else {
      assert h'.queue[i] == h.queue[i];
    }
  }

  lemma PrefixOf(w: World, w': World, requests: seq<Request>, squad: SquadId, k: nat)
    requires k < |requests| && w' == SquadWorld.Step(w, requests[0])
    ensures SquadWorld.Run(w, requests[..k + 1]) == SquadWorld.Run(w', requests[1..][..k])
    ensures SquadEnds(w, requests[..k + 1], squad) ==
      EndsNow(w, requests[0], squad) + SquadEnds(w', requests[1..][..k], squad)
  {
    assert requests[..k + 1][0] == requests[0] && requests[..k + 1][1..] == requests[1..][..k];
  }

  /** After k requests, with at most i + 1 effective ends among them, the user is champion or challenger. */
  ghost predicate ServedAfter(w: World, requests: seq<Request>, squad: SquadId, userId: string, i: nat, k: nat)
    requires k <= |requests|
  {
    InSlot(HillOf(SquadWorld.Run(w, requests[..k]), squad), userId) && SquadEnds(w, requests[..k], squad) <= i + 1
  }

  /** A user at 0-based queue position i of a squad who is not withdrawn has been champion or challenger of that
      squad after at most i + 1 of its effective match ends, whatever happens in this and all other squads. */
  lemma {:induction false} SquadBoundedWaiting(w: World, requests: seq<Request>, squad: SquadId, i: nat)
    requires i < |HillOf(w, squad).queue| && !Withdrawn(w, requests, squad, HillOf(w, squad).queue[i].userId)
    requires SquadEnds(w, requests, squad) > i
    ensures exists k :: 0 < k <= |requests| && ServedAfter(w, requests, squad, HillOf(w, squad).queue[i].userId, i, k)
    decreases |requests|
  {
    var w', rest := SquadWorld.Step(w, requests[0]), requests[1..];
    var h, h' := HillOf(w, squad), HillOf(w', squad);
    var userId := h.queue[i].userId;
    StepMovesUp(w, requests[0], h, h', squad, i);
    if InSlot(h', userId) {
      PrefixOf(w, w', requests, squad, 0);
      assert ServedAfter(w, requests, squad, userId, i, 1);
    } else {
      var j :| 0 <= j < |h'.queue| && j <= i - EndsNow(w, requests[0], squad) && h'.queue[j].userId == userId;
      SquadBoundedWaiting(w', rest, squad, j);
      var k :| 0 < k <= |rest| && ServedAfter(w', rest, squad, userId, j, k);
      PrefixOf(w, w', requests, squad, k);
      assert ServedAfter(w, requests, squad, userId, i, k + 1);
    }
  }
}
