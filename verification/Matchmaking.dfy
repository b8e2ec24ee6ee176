/** The matchmaking queue, the socket map of its gateway and the presence map of friends. */
module Matchmaking {
  import opened Lists

  datatype Entry = Entry(userId: string, socketId: string)

  predicate InQueue(queue: seq<Entry>, userId: string) {
    exists i :: 0 <= i < |queue| && queue[i].userId == userId
  }

  function Joined(queue: seq<Entry>, e: Entry): seq<Entry> {
    if InQueue(queue, e.userId) then queue else queue + [e]
  }

  function OfUser(userId: string): Entry -> bool {
    (e: Entry) => e.userId == userId
  }

  /** `findIndex` by user. */
  function UserIndex(queue: seq<Entry>, userId: string): (i: int)
    ensures -1 <= i < |queue|
    ensures i >= 0 ==> queue[i].userId == userId
    ensures i < 0 <==> !InQueue(queue, userId)
  {
    FindIndex(queue, OfUser(userId))
  }

  function Left(queue: seq<Entry>, userId: string): seq<Entry> {
    var i := UserIndex(queue, userId);
    if i >= 0 then RemoveAt(queue, i) else queue
  }

  function AfterMatch(queue: seq<Entry>): seq<Entry> {
    if |queue| < 2 then queue else queue[2..]
  }

  // ---------------------------------------------------------------------------------------------
  // First in, first out, over all runs of the service
  // ---------------------------------------------------------------------------------------------

  datatype Event = Join(entry: Entry) | Leave(userId: string) | TryMatch

  function Step(queue: seq<Entry>, ev: Event): seq<Entry> {
    match ev
    case Join(e) => Joined(queue, e)
    case Leave(userId) => Left(queue, userId)
    case TryMatch => AfterMatch(queue)
  }

  function Run(queue: seq<Entry>, events: seq<Event>): seq<Entry>
    decreases |events|
  {
    if events == [] then queue else Run(Step(queue, events[0]), events[1..])
  }

  /** An accepted join draws the next ticket. */
  datatype Ticket = Ticket(number: nat, entry: Entry)

  /** The queue as tickets, everybody matched so far in order, who left, and the number of tickets drawn. */
  datatype Book = Book(waiting: seq<Ticket>, matched: seq<Ticket>, gone: set<nat>, drawn: nat)

  function Entries(tickets: seq<Ticket>): (entries: seq<Entry>)
    ensures |entries| == |tickets| && forall i :: 0 <= i < |tickets| ==> entries[i] == tickets[i].entry
  {
    seq(|tickets|, i requires 0 <= i < |tickets| => tickets[i].entry)
  }

  function BookStep(b: Book, ev: Event): Book {
    match ev
    case Join(e) =>
      if InQueue(Entries(b.waiting), e.userId) then b
      else b.(waiting := b.waiting + [Ticket(b.drawn, e)], drawn := b.drawn + 1)
    case Leave(userId) =>
      var i := UserIndex(Entries(b.waiting), userId);
      if i < 0 then b else b.(waiting := RemoveAt(b.waiting, i), gone := b.gone + {b.waiting[i].number})
    case TryMatch =>
      if |b.waiting| < 2 then b else b.(waiting := b.waiting[2..], matched := b.matched + b.waiting[..2])
  }

  function BookRun(b: Book, events: seq<Event>): Book
    decreases |events|
  {
    if events == [] then b else BookRun(BookStep(b, events[0]), events[1..])
  }

  function Numbers(line: seq<Ticket>): set<nat> {
    set t | t in line :: t.number
  }

  ghost predicate Ordered(line: seq<Ticket>) {
    forall i, j :: 0 <= i < j < |line| ==> line[i].number < line[j].number
  }

  ghost predicate OncePerUser(line: seq<Ticket>) {
    forall i, j :: 0 <= i < j < |line| ==> line[i].entry.userId != line[j].entry.userId
  }

  /** Players 0 and 1, 2 and 3, and so on are different users. */
  ghost predicate Paired(line: seq<Ticket>) {
    |line| % 2 == 0 &&
    forall k :: 0 <= k < |line| && k % 2 == 0 ==> line[k].entry.userId != line[k + 1].entry.userId
  }

  /** The tickets in the line are the drawn ones that nobody gave up. */
  ghost predicate Accounted(line: seq<Ticket>, drawn: nat, gone: set<nat>) {
    && (forall n :: n in Numbers(line) <==> 0 <= n < drawn && n !in gone)
    && (forall n :: n in gone ==> n < drawn)
  }

  /** The matched players followed by the waiting ones are all accepted joins minus the leavers, in the order of
      joining; nobody waits twice; and the matched players are pairs of different users. */
  ghost predicate Fair(b: Book) {
    var line := b.matched + b.waiting;
    && Ordered(line)
    && Accounted(line, b.drawn, b.gone)
    && OncePerUser(b.waiting)
    && Paired(b.matched)
  }

  lemma NumbersOfPush(line: seq<Ticket>, t: Ticket)
    ensures Numbers(line + [t]) == Numbers(line) + {t.number}
  {
    assert forall x :: x in line + [t] <==> x in line || x == t;
  }

  lemma NumbersOfRemoval(line: seq<Ticket>, k: nat)
    requires k < |line| && Ordered(line)
    ensures Numbers(RemoveAt(line, k)) == Numbers(line) - {line[k].number}
    ensures Ordered(RemoveAt(line, k))
  {
    var rest := RemoveAt(line, k);
    assert forall i :: 0 <= i < |rest| ==> rest[i] == line[if i < k then i else i + 1];
    forall t | t in line && t != line[k] ensures t in rest && t.number != line[k].number {
      var i :| 0 <= i < |line| && line[i] == t;
      assert rest[if i < k then i else i - 1] == t;
    }
  }

  lemma RemovalOncePerUser(line: seq<Ticket>, k: nat)
    requires k < |line| && OncePerUser(line)
    ensures OncePerUser(RemoveAt(line, k))
  {
    var rest := RemoveAt(line, k);
    assert forall i :: 0 <= i < |rest| ==> rest[i] == line[if i < k then i else i + 1];
  }

  lemma JoinIsFair(b: Book, e: Entry)
    requires Fair(b)
    ensures Fair(BookStep(b, Join(e)))
  {
    var b' := BookStep(b, Join(e));
    if b' != b {
      var line, ticket := b.matched + b.waiting, Ticket(b.drawn, e);
      assert b'.matched + b'.waiting == line + [ticket];
      NumbersOfPush(line, ticket);
      forall i | 0 <= i < |line| ensures line[i].number < b.drawn {
        assert line[i] in line && line[i].number in Numbers(line);
      }
      assert forall i :: 0 <= i < |b.waiting| ==> Entries(b.waiting)[i].userId != e.userId;
    }
  }

  lemma RemovalIsAccounted(line: seq<Ticket>, drawn: nat, gone: set<nat>, k: nat)
    requires k < |line| && Ordered(line) && Accounted(line, drawn, gone)
    ensures Accounted(RemoveAt(line, k), drawn, gone + {line[k].number})
  {
    NumbersOfRemoval(line, k);
    assert line[k] in line && line[k].number in Numbers(line);
  }

  lemma RemovalInConcat(a: seq<Ticket>, b: seq<Ticket>, k: nat)
    requires k < |b|
    ensures RemoveAt(a + b, |a| + k) == a + RemoveAt(b, k) && (a + b)[|a| + k] == b[k]
  {
  }

  lemma LeaveIsFair(b: Book, userId: string)
    requires Fair(b)
    ensures Fair(BookStep(b, Leave(userId)))
  {
    hide Paired, OncePerUser, Ordered, Accounted, RemoveAt, Numbers, InQueue;
    var k := UserIndex(Entries(b.waiting), userId);
    if k >= 0 {
      var line := b.matched + b.waiting;
      RemovalInConcat(b.matched, b.waiting, k);
      NumbersOfRemoval(line, |b.matched| + k);
      RemovalIsAccounted(line, b.drawn, b.gone, |b.matched| + k);
      RemovalOncePerUser(b.waiting, k);
    }
  }

  lemma MatchIsFair(b: Book)
    requires Fair(b)
    ensures Fair(BookStep(b, TryMatch))
  {
    var b' := BookStep(b, TryMatch);
    assert b'.matched + b'.waiting == b.matched + b.waiting;
    if |b.waiting| >= 2 {
      forall k | 0 <= k < |b'.matched| && k % 2 == 0
        ensures b'.matched[k].entry.userId != b'.matched[k + 1].entry.userId {
        if k == |b.matched| {
          assert b'.matched[k] == b.waiting[0] && b'.matched[k + 1] == b.waiting[1];
        } else {
          assert k + 1 < |b.matched|;
        }
      }
    }
  }

  /** The book does not change what the service does. */
  lemma BookStepIsStep(b: Book, ev: Event)
    ensures Entries(BookStep(b, ev).waiting) == Step(Entries(b.waiting), ev)
  {
    hide InQueue, FindIndex;
    var entries := Entries(b.waiting);
    match ev
    case Join(e) => assert Entries(b.waiting + [Ticket(b.drawn, e)]) == entries + [e];
    case Leave(userId) =>
      var k := UserIndex(entries, userId);
      if k >= 0 { assert Entries(RemoveAt(b.waiting, k)) == RemoveAt(entries, k); }
    case TryMatch => if |entries| >= 2 { assert Entries(b.waiting[2..]) == entries[2..]; }
  }

  /** FIFO without overtaking, over any run of joins, leaves and match attempts. */
  lemma {:induction false} NobodyOvertakes(b: Book, events: seq<Event>)
    requires Fair(b)
    ensures Fair(BookRun(b, events))
    ensures Entries(BookRun(b, events).waiting) == Run(Entries(b.waiting), events)
    decreases |events|
  {
    if events != [] {
      BookStepIsStep(b, events[0]);
      match events[0] {
        case Join(e) => JoinIsFair(b, e);
        case Leave(userId) => LeaveIsFair(b, userId);
        case TryMatch => MatchIsFair(b);
      }
      NobodyOvertakes(BookStep(b, events[0]), events[1..]);
    }
  }

  // ---------------------------------------------------------------------------------------------
  // The gateway: queue, socket map and presence map together
  // ---------------------------------------------------------------------------------------------

  datatype Desk = Desk(queue: seq<Entry>, socketToUser: map<string, string>, online: map<string, string>)

  datatype Message = Hello(socketId: string, userId: string) | Cancel(userId: string) | Gone(socketId: string)

  function Receive(d: Desk, m: Message): Desk {
    match m
    case Hello(socketId, userId) =>
      Desk(AfterMatch(Joined(d.queue, Entry(userId, socketId))), d.socketToUser[socketId := userId],
        d.online[userId := socketId])
    case Cancel(userId) => d.(queue := Left(d.queue, userId))
    case Gone(socketId) =>
      // the empty user id is falsy
      if socketId !in d.socketToUser || d.socketToUser[socketId] == "" then d
      else
        var userId := d.socketToUser[socketId];
        Desk(Left(d.queue, userId), d.socketToUser - {socketId}, d.online - {userId})
  }

  function ReceiveAll(d: Desk, messages: seq<Message>): Desk
    decreases |messages|
  {
    if messages == [] then d else ReceiveAll(Receive(d, messages[0]), messages[1..])
  }

  /** An online user's socket maps back to him, a queued entry's socket is registered to its user, and at most one
      player waits. */
  ghost predicate Agreement(d: Desk) {
    && (forall u :: u in d.online ==> d.online[u] in d.socketToUser && d.socketToUser[d.online[u]] == u)
    && (forall i :: 0 <= i < |d.queue| ==>
          d.queue[i].socketId in d.socketToUser && d.socketToUser[d.queue[i].socketId] == d.queue[i].userId)
    && |d.queue| <= 1
  }

  /** The announcement keeps the maps in agreement, exactly when the socket was not the presence of another user. */
  lemma HelloAgreesIff(d: Desk, socketId: string, userId: string)
    requires Agreement(d)
    ensures Agreement(Receive(d, Hello(socketId, userId))) <==>
      !(socketId in d.socketToUser && d.socketToUser[socketId] != userId
        && d.socketToUser[socketId] in d.online && d.online[d.socketToUser[socketId]] == socketId)
  {
    var d' := Receive(d, Hello(socketId, userId));
    if socketId in d.socketToUser && d.socketToUser[socketId] != userId
       && d.socketToUser[socketId] in d.online && d.online[d.socketToUser[socketId]] == socketId {
      assert d'.online[d.socketToUser[socketId]] == socketId;
    }
  }

  /** Who is left in the queue was there before, and is not the leaver if nobody is queued twice. */
  lemma LeftWereQueued(queue: seq<Entry>, userId: string)
    requires |queue| <= 1
    ensures |Left(queue, userId)| <= |queue|
    ensures forall e :: e in Left(queue, userId) ==> e in queue && e.userId != userId
  {
  }

  lemma OtherMessagesAgree(d: Desk, m: Message)
    requires Agreement(d) && !m.Hello?
    ensures Agreement(Receive(d, m))
  {
    hide Left;
    match m
    case Cancel(userId) =>
      LeftWereQueued(d.queue, userId);
    case Gone(socketId) =>
      if socketId in d.socketToUser && d.socketToUser[socketId] != "" {
        LeftWereQueued(d.queue, d.socketToUser[socketId]);
      }
  }

  /** Every socket announces one user only. */
  ghost predicate OneUserPerSocket(messages: seq<Message>, announced: map<string, string>) {
    forall i :: 0 <= i < |messages| && messages[i].Hello? ==>
      messages[i].socketId in announced && announced[messages[i].socketId] == messages[i].userId
  }

  /** Socket agreement in every reachable state. */
  lemma {:induction false} AlwaysAgreed(d: Desk, messages: seq<Message>, announced: map<string, string>)
    requires Agreement(d) && OneUserPerSocket(messages, announced)
    requires forall s :: s in d.socketToUser ==> s in announced && announced[s] == d.socketToUser[s]
    ensures Agreement(ReceiveAll(d, messages))
    decreases |messages|
  {
    if messages != [] {
      match messages[0] {
        case Hello(socketId, userId) => HelloAgreesIff(d, socketId, userId);
        case _ => OtherMessagesAgree(d, messages[0]);
      }
      assert forall i :: 0 <= i < |messages[1..]| ==> messages[1..][i] == messages[i + 1];
      AlwaysAgreed(Receive(d, messages[0]), messages[1..], announced);
    }
  }

  ghost predicate NamedNowhere(d: Desk, socketId: string) {
    && socketId !in d.socketToUser
    && (forall u :: u in d.online ==> d.online[u] != socketId)
    && (forall i :: 0 <= i < |d.queue| ==> d.queue[i].socketId != socketId)
  }

  /** The close is handled: the socket was announced, not with the empty user id. */
  predicate Handled(d: Desk, socketId: string) {
    socketId in d.socketToUser && d.socketToUser[socketId] != ""
  }

  /** Only the user of the socket's last announcement is on it: in the presence map, and with his one queue entry. */
  ghost predicate OnlyLastUser(d: Desk, socketId: string)
    requires socketId in d.socketToUser
  {
    var user := d.socketToUser[socketId];
    && (forall u :: u in d.online && d.online[u] == socketId ==> u == user)
    && (forall i :: 0 <= i < |d.queue| && d.queue[i].socketId == socketId ==> i == UserIndex(d.queue, user))
  }

  lemma RemovedAt<T>(s: seq<T>, k: nat)
    requires k < |s|
    ensures forall i :: 0 <= i < |s| ==> i == k || s[i] in RemoveAt(s, k)
    ensures forall e :: e in RemoveAt(s, k) ==> exists i :: 0 <= i < |s| && i != k && s[i] == e
  {
    var rest := RemoveAt(s, k);
    assert forall i :: 0 <= i < |rest| ==> rest[i] == s[if i < k then i else i + 1];
    forall i | 0 <= i < |s| && i != k ensures s[i] in rest {
      assert rest[if i < k then i else i - 1] == s[i];
    }
  }

  /** Nobody is left on the socket exactly if only the user's first entry was on it. */
  lemma LeftIsOffIff(queue: seq<Entry>, userId: string, socketId: string)
    ensures (forall e :: e in Left(queue, userId) ==> e.socketId != socketId) <==>
      (forall i :: 0 <= i < |queue| && queue[i].socketId == socketId ==> i == UserIndex(queue, userId))
  {
    hide UserIndex, RemoveAt;
    var k := UserIndex(queue, userId);
    if k >= 0 {
      RemovedAt(queue, k);
    } else {
      assert forall i :: 0 <= i < |queue| ==> queue[i] in queue;
    }
  }

  /** For every desk: a closed socket is named nowhere, if and only if its close is handled and nobody but its last user
      is on it, or it was named nowhere before. */
  lemma ClosedSocketIsForgottenIff(d: Desk, socketId: string)
    ensures NamedNowhere(Receive(d, Gone(socketId)), socketId) <==>
      if Handled(d, socketId) then OnlyLastUser(d, socketId) else NamedNowhere(d, socketId)
  {
    hide Left, UserIndex;
    if Handled(d, socketId) {
      var d', user := Receive(d, Gone(socketId)), d.socketToUser[socketId];
      LeftIsOffIff(d.queue, user, socketId);
      QueueIsOffIff(d'.queue, socketId);
      forall u | u in d.online && u != user ensures u in d'.online && d'.online[u] == d.online[u] {
      }
    }
  }

  lemma QueueIsOffIff(queue: seq<Entry>, socketId: string)
    ensures (forall i :: 0 <= i < |queue| ==> queue[i].socketId != socketId) <==>
      (forall e :: e in queue ==> e.socketId != socketId)
  {
    assert forall i :: 0 <= i < |queue| ==> queue[i] in queue;
  }

  /** In particular, while the maps agree, exactly if it was not announced with the empty user id. */
  lemma AgreedSocketIsForgottenIff(d: Desk, socketId: string)
    requires Agreement(d)
    ensures NamedNowhere(Receive(d, Gone(socketId)), socketId) <==>
      !(socketId in d.socketToUser && d.socketToUser[socketId] == "")
  {
    ClosedSocketIsForgottenIff(d, socketId);
    if socketId in d.socketToUser {
      assert |d.queue| == 1 && d.queue[0].userId == d.socketToUser[socketId] ==>
        UserIndex(d.queue, d.socketToUser[socketId]) == 0;
    }
  }

  // ---------------------------------------------------------------------------------------------
  // Leaving at the gateway
  // ---------------------------------------------------------------------------------------------

  ghost predicate OnceQueued(queue: seq<Entry>) {
    forall i, j :: 0 <= i < j < |queue| ==> queue[i].userId != queue[j].userId
  }

  /** The entries of everybody else, in their order. */
  function Others(queue: seq<Entry>, userId: string): seq<Entry> {
    if queue == [] then []
    else (if queue[0].userId == userId then [] else [queue[0]]) + Others(queue[1..], userId)
  }

  lemma {:induction false} OthersOfAbsent(queue: seq<Entry>, userId: string)
    requires forall i :: 0 <= i < |queue| ==> queue[i].userId != userId
    ensures Others(queue, userId) == queue
  {
    if queue != [] { OthersOfAbsent(queue[1..], userId); }
  }

  lemma {:induction false} OthersAre(queue: seq<Entry>, userId: string)
    requires OnceQueued(queue)
    ensures OnceQueued(Others(queue, userId))
    ensures forall e :: e in Others(queue, userId) ==> e in queue && e.userId != userId
  {
    if queue != [] {
      assert forall i :: 0 <= i < |queue[1..]| ==> queue[1..][i] == queue[i + 1];
      OthersAre(queue[1..], userId);
      forall e | e in Others(queue[1..], userId) ensures e in queue && e.userId != queue[0].userId {
        var k :| 0 <= k < |queue[1..]| && queue[1..][k] == e;
      }
    }
  }

  lemma LeftIsOthers(queue: seq<Entry>, userId: string)
    requires OnceQueued(queue)
    ensures Left(queue, userId) == Others(queue, userId) && !InQueue(Left(queue, userId), userId)
    ensures OnceQueued(Left(queue, userId)) && forall e :: e in Left(queue, userId) ==> e in queue
  {
    hide Others, UserIndex;
    LeftOfParts(queue, userId);
    OthersAre(queue, userId);
    hide OnceQueued, Left, RemoveAt;
  }

  lemma {:induction false} LeftOfParts(queue: seq<Entry>, userId: string)
    requires OnceQueued(queue)
    ensures Left(queue, userId) == Others(queue, userId)
  {
    if queue != [] {
      var rest := queue[1..];
      assert forall i :: 0 <= i < |rest| ==> rest[i] == queue[i + 1];
      if queue[0].userId == userId {
        OthersOfAbsent(rest, userId);
        assert RemoveAt(queue, 0) == rest;
      } else {
        LeftOfParts(rest, userId);
        var k := UserIndex(rest, userId);
        assert UserIndex(queue, userId) == if k < 0 then -1 else k + 1;
        if k >= 0 { assert RemoveAt(queue, k + 1) == [queue[0]] + RemoveAt(rest, k); }
        assert queue == [queue[0]] + rest;
      }
    }
  }

  lemma JoinedOnce(queue: seq<Entry>, e: Entry)
    requires OnceQueued(queue)
    ensures OnceQueued(Joined(queue, e)) && OnceQueued(AfterMatch(Joined(queue, e)))
  {
  }

  lemma AgreedIsOnce(d: Desk)
    requires Agreement(d)
    ensures OnceQueued(d.queue)
  {
  }

  /** A cancel takes the user out of the queue, keeps everybody else in his order, and leaves both maps as they are. */
  lemma CancelTakesOut(d: Desk, userId: string)
    requires OnceQueued(d.queue)
    ensures Receive(d, Cancel(userId)) == Desk(Others(d.queue, userId), d.socketToUser, d.online)
    ensures !InQueue(Receive(d, Cancel(userId)).queue, userId)
  {
    LeftIsOthers(d.queue, userId);
  }

  /** The close of an announced socket does the same for the user of its last announcement, forgets the socket and sets
      him offline; no other close does anything. */
  lemma GoneTakesOut(d: Desk, socketId: string)
    requires OnceQueued(d.queue)
    ensures Receive(d, Gone(socketId)) ==
      if Handled(d, socketId) then
        var user := d.socketToUser[socketId];
        Desk(Others(d.queue, user), d.socketToUser - {socketId}, d.online - {user})
      else d
    ensures Handled(d, socketId) ==> !InQueue(Receive(d, Gone(socketId)).queue, d.socketToUser[socketId])
  {
    if Handled(d, socketId) { LeftIsOthers(d.queue, d.socketToUser[socketId]); }
  }

  /** A user is online from his announcement on, with that socket, until the socket he announced last is closed, and a
      socket belongs to the user it announced last. */
  lemma PresenceAfter(d: Desk, m: Message, user: string)
    ensures user in Receive(d, m).online <==>
      (m.Hello? && m.userId == user) || (user in d.online && !(m.Gone? && Leaves(d, m, user)))
    ensures user in Receive(d, m).online ==>
      Receive(d, m).online[user] == if m.Hello? && m.userId == user then m.socketId else d.online[user]
  {
  }

  lemma SocketsAfter(d: Desk, m: Message, socketId: string)
    ensures socketId in Receive(d, m).socketToUser <==>
      (m.Hello? && m.socketId == socketId) ||
      (socketId in d.socketToUser && (m == Gone(socketId) ==> d.socketToUser[socketId] == ""))
    ensures socketId in Receive(d, m).socketToUser ==>
      Receive(d, m).socketToUser[socketId] ==
        if m.Hello? && m.socketId == socketId then m.userId else d.socketToUser[socketId]
  {
  }

  lemma ReceiveKeepsOnce(d: Desk, m: Message)
    requires OnceQueued(d.queue)
    ensures OnceQueued(Receive(d, m).queue)
  {
    hide Left;
    match m
    case Hello(socketId, userId) => JoinedOnce(d.queue, Entry(userId, socketId));
    case Cancel(userId) => LeftIsOthers(d.queue, userId);
    case Gone(socketId) => if Handled(d, socketId) { LeftIsOthers(d.queue, d.socketToUser[socketId]); }
  }

  /** The pair that an announcement matches, if any. */
  function Matched(d: Desk, m: Message): seq<Entry> {
    if m.Hello? && |Joined(d.queue, Entry(m.userId, m.socketId))| >= 2
    then Joined(d.queue, Entry(m.userId, m.socketId))[..2] else []
  }

  /** All pairs of a run, one after the other. */
  function MatchedBy(d: Desk, messages: seq<Message>): seq<Entry>
    decreases |messages|
  {
    if messages == [] then [] else Matched(d, messages[0]) + MatchedBy(Receive(d, messages[0]), messages[1..])
  }

  ghost predicate NoHelloOf(messages: seq<Message>, userId: string) {
    forall i :: 0 <= i < |messages| && messages[i].Hello? ==> messages[i].userId != userId
  }

  lemma AbsentStaysAbsent(d: Desk, m: Message, userId: string)
    requires OnceQueued(d.queue) && !InQueue(d.queue, userId) && (m.Hello? ==> m.userId != userId)
    ensures !InQueue(Receive(d, m).queue, userId)
    ensures forall e :: e in Matched(d, m) ==> e.userId != userId
  {
    hide Left;
    match m
    case Hello(socketId, other) =>
    case Cancel(other) =>
      LeftIsOthers(d.queue, other);
      SubqueueIsAbsent(d.queue, Left(d.queue, other), userId);
    case Gone(socketId) =>
      if Handled(d, socketId) {
        LeftIsOthers(d.queue, d.socketToUser[socketId]);
        SubqueueIsAbsent(d.queue, Left(d.queue, d.socketToUser[socketId]), userId);
      }
  }

  lemma SubqueueIsAbsent(queue: seq<Entry>, rest: seq<Entry>, userId: string)
    requires !InQueue(queue, userId) && forall e :: e in rest ==> e in queue
    ensures !InQueue(rest, userId)
  {
    forall i | 0 <= i < |rest| ensures rest[i].userId != userId {
      assert rest[i] in queue;
    }
  }

  lemma {:induction false} AbsentIsNotMatched(d: Desk, messages: seq<Message>, userId: string)
    requires OnceQueued(d.queue) && !InQueue(d.queue, userId) && NoHelloOf(messages, userId)
    ensures !InQueue(ReceiveAll(d, messages).queue, userId)
    ensures forall e :: e in MatchedBy(d, messages) ==> e.userId != userId
    decreases |messages|
  {
    hide InQueue, Matched;
    if messages != [] {
      AbsentStaysAbsent(d, messages[0], userId);
      ReceiveKeepsOnce(d, messages[0]);
      assert forall i :: 0 <= i < |messages[1..]| ==> messages[1..][i] == messages[i + 1];
      AbsentIsNotMatched(Receive(d, messages[0]), messages[1..], userId);
    }
  }

  /** The user cancels, or the socket that he announced last is closed. */
  predicate Leaves(d: Desk, m: Message, userId: string) {
    m == Cancel(userId) || (m.Gone? && Handled(d, m.socketId) && d.socketToUser[m.socketId] == userId)
  }

  /** Over every run: whoever has left is in no matched pair until he announces himself again. */
  lemma LeaverIsNotMatched(d: Desk, m: Message, messages: seq<Message>, userId: string)
    requires OnceQueued(d.queue) && Leaves(d, m, userId) && NoHelloOf(messages, userId)
    ensures Matched(d, m) == [] && forall e :: e in MatchedBy(Receive(d, m), messages) ==> e.userId != userId
    ensures !InQueue(ReceiveAll(Receive(d, m), messages).queue, userId)
  {
    if m.Cancel? {
      CancelTakesOut(d, userId);
    } else {
      GoneTakesOut(d, m.socketId);
    }
    ReceiveKeepsOnce(d, m);
    AbsentIsNotMatched(Receive(d, m), messages, userId);
  }

  // ---------------------------------------------------------------------------------------------
  // First in, first out at the gateway
  // ---------------------------------------------------------------------------------------------

  /** What a message asks of the queue. */
  function Asks(d: Desk, m: Message): seq<Event> {
    match m
    case Hello(socketId, userId) => [Join(Entry(userId, socketId)), TryMatch]
    case Cancel(userId) => [Leave(userId)]
    case Gone(socketId) => if Handled(d, socketId) then [Leave(d.socketToUser[socketId])] else []
  }

  function AllAsk(d: Desk, messages: seq<Message>): seq<Event>
    decreases |messages|
  {
    if messages == [] then [] else Asks(d, messages[0]) + AllAsk(Receive(d, messages[0]), messages[1..])
  }

  lemma {:induction false} BookRunOfConcat(b: Book, first: seq<Event>, rest: seq<Event>)
    ensures BookRun(b, first + rest) == BookRun(BookRun(b, first), rest)
    decreases |first|
  {
    if first == [] {
      assert first + rest == rest;
    } else {
      assert (first + rest)[0] == first[0] && (first + rest)[1..] == first[1..] + rest;
      BookRunOfConcat(BookStep(b, first[0]), first[1..], rest);
    }
  }

  lemma EntriesOfPush(line: seq<Ticket>, more: seq<Ticket>)
    ensures Entries(line + more) == Entries(line) + Entries(more)
  {
  }

  /** The book after one message. */
  lemma BookOfMessage(b: Book, d: Desk, m: Message)
    requires Entries(b.waiting) == d.queue
    ensures
      var b' := BookRun(b, Asks(d, m));
      && Entries(b'.waiting) == Receive(d, m).queue
      && Entries(b'.matched) == Entries(b.matched) + Matched(d, m)
  {
    hide InQueue, UserIndex, Left, RemoveAt;
    match m
    case Hello(socketId, userId) =>
      var e := Entry(userId, socketId);
      var joined := BookStep(b, Join(e));
      BookStepIsStep(b, Join(e));
      BookStepIsStep(joined, TryMatch);
      assert Asks(d, m) == [Join(e)] + ([TryMatch] + []);
      BookRunOfConcat(b, [Join(e)], [TryMatch]);
      assert BookRun(b, [Join(e)]) == joined && BookRun(joined, [TryMatch]) == BookStep(joined, TryMatch);
      if |joined.waiting| >= 2 {
        EntriesOfPush(joined.matched, joined.waiting[..2]);
        assert Entries(joined.waiting[..2]) == Entries(joined.waiting)[..2];
      }
    case Cancel(userId) =>
      BookStepIsStep(b, Leave(userId));
      assert BookRun(b, [Leave(userId)]) == BookStep(b, Leave(userId));
    case Gone(socketId) =>
      if Handled(d, socketId) {
        BookStepIsStep(b, Leave(d.socketToUser[socketId]));
        assert BookRun(b, [Leave(d.socketToUser[socketId])]) == BookStep(b, Leave(d.socketToUser[socketId]));
      }
  }

  /** Over every run of messages the gateway matches exactly as the book says: the pairs it made, followed by its queue,
      are the accepted joins minus the leavers in the order of joining. */
  lemma {:induction false} GatewayIsFair(b: Book, d: Desk, messages: seq<Message>)
    requires Fair(b) && Entries(b.waiting) == d.queue
    ensures
      var b' := BookRun(b, AllAsk(d, messages));
      && Fair(b') && Entries(b'.waiting) == ReceiveAll(d, messages).queue
      && Entries(b'.matched) == Entries(b.matched) + MatchedBy(d, messages)
    decreases |messages|
  {
    hide Fair, Receive, Asks, Matched, Entries;
    if messages == [] {
      assert Entries(b.matched) + [] == Entries(b.matched);
    } else {
      var m, d' := messages[0], Receive(d, messages[0]);
      BookOfMessage(b, d, m);
      NobodyOvertakes(b, Asks(d, m));
      BookRunOfConcat(b, Asks(d, m), AllAsk(d', messages[1..]));
      GatewayIsFair(BookRun(b, Asks(d, m)), d', messages[1..]);
    }
  }

  const EMPTY_BOOK := Book([], [], {}, 0)

  /** From an empty desk. */
  lemma FairFromNothing(messages: seq<Message>)
    ensures
      var b := BookRun(EMPTY_BOOK, AllAsk(Desk([], map[], map[]), messages));
      && Fair(b) && Entries(b.waiting) == ReceiveAll(Desk([], map[], map[]), messages).queue
      && Entries(b.matched) == MatchedBy(Desk([], map[], map[]), messages)
  {
    assert Numbers([]) == {};
    GatewayIsFair(EMPTY_BOOK, Desk([], map[], map[]), messages);
    assert Entries([]) + MatchedBy(Desk([], map[], map[]), messages) == MatchedBy(Desk([], map[], map[]), messages);
  }
}
