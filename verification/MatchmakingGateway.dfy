/** The three objects behind matchmaking, changed in place, proved to take the steps of `Matchmaking`.  Making the room
    for a matched pair and the emits are left out. */
module MatchmakingGateway {
  import opened Wrappers
  import opened Lists
  import opened Matchmaking

  class MatchmakingService {
    var queue: seq<Entry>

    constructor ()
      ensures queue == []
    {
      queue := [];
    }

    method FindUser(userId: string) returns (index: int)
      ensures index == UserIndex(queue, userId)
    {
      index := 0;
      while index < |queue|
        invariant 0 <= index <= |queue|
        invariant forall j :: 0 <= j < index ==> queue[j].userId != userId
      {
        if queue[index].userId == userId {
          FindIndexIs(queue, OfUser(userId), index);
          return;
        }
        index := index + 1;
      }
      index := -1;
      FindIndexIs(queue, OfUser(userId), index);
    }

    method JoinQueue(e: Entry)
      modifies this
      ensures queue == Joined(old(queue), e)
    {
      var found := FindUser(e.userId);
      if found >= 0 { return; }
      queue := queue + [e];
    }

    method LeaveQueue(userId: string)
      modifies this
      ensures queue == Left(old(queue), userId)
    {
      var i := FindUser(userId);
      if i != -1 { queue := RemoveAt(queue, i); }
    }

    /** The two longest waiting players, if there are two. */
    method TryMatch() returns (pair: Option<(Entry, Entry)>)
      modifies this
      ensures queue == AfterMatch(old(queue))
      ensures pair == if |old(queue)| < 2 then None else Some((old(queue)[0], old(queue)[1]))
    {
      if |queue| < 2 { return None; }
      var p1 := queue[0];
      queue := queue[1..];
      var p2 := queue[0];
      queue := queue[1..];
      pair := Some((p1, p2));
    }
  }

  class FriendService {
    var onlineUsers: map<string, string>

    constructor ()
      ensures onlineUsers == map[]
    {
      onlineUsers := map[];
    }

    method SetUserOnline(userId: string, socketId: string)
      modifies this
      ensures onlineUsers == old(onlineUsers)[userId := socketId]
    {
      onlineUsers := onlineUsers[userId := socketId];
    }

    method SetUserOffline(userId: string)
      modifies this
      ensures onlineUsers == old(onlineUsers) - {userId}
    {
      onlineUsers := onlineUsers - {userId};
    }
  }

  class MatchmakingGateway {
    const matchmaking: MatchmakingService
    const friends: FriendService
    var socketToUser: map<string, string>

    constructor (matchmaking: MatchmakingService, friends: FriendService)
      ensures this.matchmaking == matchmaking && this.friends == friends && socketToUser == map[]
    {
      this.matchmaking, this.friends, socketToUser := matchmaking, friends, map[];
    }

    function View(): Desk
      reads this, matchmaking, friends
    {
      Desk(matchmaking.queue, socketToUser, friends.onlineUsers)
    }

    method HandleJoin(socketId: string, userId: string) returns (pair: Option<(Entry, Entry)>)
      modifies this, matchmaking, friends
      ensures View() == Receive(old(View()), Hello(socketId, userId))
      ensures
        var line := Joined(old(matchmaking.queue), Entry(userId, socketId));
        pair == if |line| < 2 then None else Some((line[0], line[1]))
    {
      socketToUser := socketToUser[socketId := userId];
      friends.SetUserOnline(userId, socketId);
      matchmaking.JoinQueue(Entry(userId, socketId));
      pair := matchmaking.TryMatch();
    }

    method HandleCancel(userId: string)
      modifies matchmaking
      ensures View() == Receive(old(View()), Cancel(userId))
    {
      matchmaking.LeaveQueue(userId);
    }

    method HandleDisconnect(socketId: string)
      modifies this, matchmaking, friends
      ensures View() == Receive(old(View()), Gone(socketId))
    {
      if socketId in socketToUser && socketToUser[socketId] != "" {
        var userId := socketToUser[socketId];
        matchmaking.LeaveQueue(userId);
        friends.SetUserOffline(userId);
        socketToUser := socketToUser - {socketId};
      }
    }
  }
}
