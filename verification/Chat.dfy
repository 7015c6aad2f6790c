/** Chat rooms: membership, the pages of a room's history, and read flags. */
module Chat {
  import opened Results
  import opened Pagination

  type UserId = string
  type RoomId = string

  datatype Message = Message(roomId: RoomId, senderId: UserId, content: string, isRead: bool)

  datatype ChatError = RoomNotFound | NotAMember

  /** A room's messages, oldest first; the table is in creation order. */
  function History(table: seq<Message>, roomId: RoomId): seq<Message> {
    if table == [] then []
    else (if table[0].roomId == roomId then [table[0]] else []) + History(table[1..], roomId)
  }

  function Reversed<T>(xs: seq<T>): seq<T> {
    seq(|xs|, i requires 0 <= i < |xs| => xs[|xs| - 1 - i])
  }

  /* ---- The windows ---- */

  function FromEnd(n: nat, skipped: int): nat {
    if skipped >= n then 0 else if skipped <= 0 then n else n - skipped
  }

  /** The slice of the history a page stands for. */
  function ChatPage<T>(history: seq<T>, page: nat, limit: nat): seq<T>
    requires page >= 1
  {
    SkipNonNegative(page, limit);
    var n := |history|;
    history[FromEnd(n, page * limit)..FromEnd(n, SkipOf(page, limit))]
  }

  /** Reading newest first, cutting the page and turning it round is cutting the history from its end. */
  lemma WindowOfReversed<T>(history: seq<T>, page: nat, limit: nat)
    requires page >= 1
    ensures SkipOf(page, limit) >= 0
    ensures Reversed(Window(Reversed(history), SkipOf(page, limit), limit)) == ChatPage(history, page, limit)
  {
    SkipNonNegative(page, limit);
  }

  /** Pages `pages` down to 1, one after the other. */
  function PagesDown<T>(history: seq<T>, pages: nat, limit: nat): seq<T> {
    if pages == 0 then [] else ChatPage(history, pages, limit) + PagesDown(history, pages - 1, limit)
  }

  lemma {:induction false} PagesDownAreSuffix<T>(history: seq<T>, pages: nat, limit: nat)
    ensures PagesDown(history, pages, limit) == history[FromEnd(|history|, pages * limit)..]
  {
    if pages > 0 {
      PagesDownAreSuffix(history, pages - 1, limit);
      SkipNonNegative(pages, limit);
      var a, b := FromEnd(|history|, pages * limit), FromEnd(|history|, (pages - 1) * limit);
      assert history[a..] == history[a..b] + history[b..];
    }
  }

  /** The pages totalPages down to 1 rebuild the whole history, every message once and in order. */
  lemma PagesRebuildHistory<T>(history: seq<T>, limit: nat)
    requires limit >= 1
    ensures PagesDown(history, TotalPages(|history|, limit), limit) == history
  {
    TotalPagesIsLeast(|history|, limit);
    PagesDownAreSuffix(history, TotalPages(|history|, limit), limit);
    assert history[0..] == history;
  }

  /* ---- Read flags ---- */

  predicate Unread(m: Message, roomId: RoomId, readerId: UserId) {
    m.roomId == roomId && m.senderId != readerId && !m.isRead
  }

  /** updateMany: what others wrote in the room becomes read. */
  function MarkRead(table: seq<Message>, roomId: RoomId, readerId: UserId): seq<Message> {
    seq(|table|, i requires 0 <= i < |table| =>
      if Unread(table[i], roomId, readerId) then table[i].(isRead := true) else table[i])
  }

  lemma {:induction false} HistoryIn(table: seq<Message>, roomId: RoomId)
    ensures forall m | m in History(table, roomId) :: m in table && m.roomId == roomId
  {
    if table != [] {
      HistoryIn(table[1..], roomId);
    }
  }

  /** A flag changes exactly for an unread message of the room that somebody else sent, and nothing but flags changes. */
  lemma FlagChangesIff(table: seq<Message>, roomId: RoomId, readerId: UserId, i: nat)
    requires i < |table|
    ensures |MarkRead(table, roomId, readerId)| == |table|
    ensures var was, is' := table[i], MarkRead(table, roomId, readerId)[i];
            && is'.roomId == was.roomId && is'.senderId == was.senderId && is'.content == was.content
            && (is'.isRead != was.isRead <==> was.roomId == roomId && was.senderId != readerId && !was.isRead)
            && (was.isRead ==> is'.isRead)
  {
  }

  lemma MarkReadJoin(a: seq<Message>, b: seq<Message>, roomId: RoomId, readerId: UserId)
    ensures MarkRead(a + b, roomId, readerId) == MarkRead(a, roomId, readerId) + MarkRead(b, roomId, readerId)
  {
  }

  lemma MarkReadElsewhere(table: seq<Message>, roomId: RoomId, readerId: UserId)
    requires forall m | m in table :: m.roomId != roomId
    ensures MarkRead(table, roomId, readerId) == table
  {
  }

  lemma {:induction false} MarkedHistory(table: seq<Message>, roomId: RoomId, readerId: UserId, other: RoomId)
    ensures History(MarkRead(table, roomId, readerId), other) == MarkRead(History(table, other), roomId, readerId)
  {
    if table != [] {
      MarkedHistory(table[1..], roomId, readerId, other);
      assert MarkRead(table, roomId, readerId)[1..] == MarkRead(table[1..], roomId, readerId);
      var first := if table[0].roomId == other then [table[0]] else [];
      MarkReadJoin(first, History(table[1..], other), roomId, readerId);
    }
  }

  /** Marking changes a room's history in its flags alone, and other rooms not at all. */
  lemma MarkReadHistory(table: seq<Message>, roomId: RoomId, readerId: UserId, other: RoomId)
    ensures History(MarkRead(table, roomId, readerId), other) == MarkRead(History(table, other), roomId, readerId)
    ensures other != roomId ==> History(MarkRead(table, roomId, readerId), other) == History(table, other)
    ensures forall m | m in MarkRead(table, roomId, readerId) :: !Unread(m, roomId, readerId)
  {
    MarkedHistory(table, roomId, readerId, other);
    HistoryIn(table, other);
    if other != roomId {
      MarkReadElsewhere(History(table, other), roomId, readerId);
    }
  }

  /* ---- The service ---- */

  /** Array.prototype.reverse */
  method Reverse<T>(a: array<T>)
    modifies a
    ensures a[..] == Reversed(old(a[..]))
  {
    var n := a.Length;
    for i := 0 to n / 2
      invariant forall k | 0 <= k < i :: a[k] == old(a[n - 1 - k]) && a[n - 1 - k] == old(a[k])
      invariant forall k | i <= k < n - i :: a[k] == old(a[k])
    {
      a[i], a[n - 1 - i] := a[n - 1 - i], a[i];
    }
  }

  class ChatService {
    var members: set<(UserId, RoomId)>
    var messages: seq<Message>

    constructor (members: set<(UserId, RoomId)>)
      ensures this.members == members && messages == []
    {
      this.members := members;
      messages := [];
    }

    /** The transaction of getMessages: one page of the room and the number of its messages, from one snapshot. */
    method LoadPage(roomId: RoomId, page: nat, limit: nat) returns (shown: seq<Message>, total: nat)
      requires page >= 1 && limit >= 1
      ensures shown == ChatPage(History(messages, roomId), page, limit)
      ensures total == |History(messages, roomId)|
    {
      var skip := (page - 1) * limit;
      var history := History(messages, roomId);
      WindowOfReversed(history, page, limit);
      var newestFirst := Window(Reversed(history), skip, limit);
      total := |history|;
      var rows := new Message[|newestFirst|](i requires 0 <= i < |newestFirst| => newestFirst[i]);
      assert rows[..] == newestFirst;
      Reverse(rows);
      shown := rows[..];
    }

    /** The update that follows it, after whatever other requests did meanwhile. */
    method MarkRoomRead(roomId: RoomId, userId: UserId)
      modifies this`messages
      ensures messages == MarkRead(old(messages), roomId, userId)
      ensures |messages| == |old(messages)|
      ensures forall i | 0 <= i < |messages| ::
                var was := old(messages)[i];
                messages[i] == if was.roomId == roomId && was.senderId != userId then was.(isRead := true) else was
    {
      messages := MarkRead(messages, roomId, userId);
    }

    /**
     A member gets the page of the history that ends `(page - 1) * limit` messages before the
     newest, oldest first, with the flags from before the call; then the room counts as read.
     */
    method GetMessages(roomId: RoomId, userId: UserId, page: nat, limit: nat)
      returns (outcome: Result<seq<Message>, ChatError>, total: nat, totalPages: nat)
      requires page >= 1 && limit >= 1
      modifies this`messages
      ensures outcome.Ok? <==> (userId, roomId) in members
      ensures messages == Step(members, old(messages), Fetch(roomId, userId))
      ensures outcome.Err? ==> outcome.error == RoomNotFound && messages == old(messages)
      ensures outcome.Ok? ==>
                && outcome.value == ChatPage(History(old(messages), roomId), page, limit)
                && messages == MarkRead(old(messages), roomId, userId)
                && total == |History(old(messages), roomId)|
                && totalPages == TotalPages(total, limit)
    {
      if (userId, roomId) !in members {
        return Err(RoomNotFound), 0, 0;
      }
      var shown;
      shown, total := LoadPage(roomId, page, limit);
      MarkRoomRead(roomId, userId);
      outcome := Ok(shown);
      totalPages := TotalPages(total, limit);
    }

    method SaveMessage(roomId: RoomId, senderId: UserId, content: string)
      returns (outcome: Result<Message, ChatError>)
      modifies this`messages
      ensures outcome.Ok? <==> (senderId, roomId) in members
      ensures messages == Step(members, old(messages), Save(roomId, senderId, content))
      ensures outcome.Err? ==> outcome.error == NotAMember && messages == old(messages)
      ensures outcome.Ok? ==>
                outcome.value == Message(roomId, senderId, content, false) && messages == old(messages) + [outcome.value]
    {
      if (senderId, roomId) !in members {
        return Err(NotAMember);
      }
      var message := Message(roomId, senderId, content, false);
      messages := messages + [message];
      outcome := Ok(message);
    }
  }

  lemma HistoryAppended(table: seq<Message>, m: Message)
    ensures History(table + [m], m.roomId) == History(table, m.roomId) + [m]
  {
    HistoryJoin(table, [m], m.roomId);
    HistoryUnfolds([m], m.roomId);
  }

  /** A message just saved is the last one of page 1. */
  lemma NewestIsLastOfFirstPage(table: seq<Message>, m: Message, limit: nat)
    requires limit >= 1
    ensures var before, after := History(table, m.roomId), History(table + [m], m.roomId);
            ChatPage(after, 1, limit) == before[FromEnd(|before|, limit - 1)..] + [m]
  {
    var before := History(table, m.roomId);
    HistoryAppended(table, m);
    PageAfterSaves(before, [m], 1, limit);
    assert SkipOf(1, limit) == 0 && ChatPage([m], 1, limit) == [m];
  }

  /**
   After a member has fetched any page, nothing in the room is unread for that member, the
   history still shows the same messages page by page but for their flags, and other rooms
   show exactly what they showed.
   */
  lemma FetchingMarksOnlyTheRoom(table: seq<Message>, roomId: RoomId, readerId: UserId, other: RoomId, page: nat, limit: nat)
    requires page >= 1
    ensures var after := MarkRead(table, roomId, readerId);
            && (forall m | m in History(after, roomId) :: !Unread(m, roomId, readerId))
            && ChatPage(History(after, other), page, limit)
                 == MarkRead(ChatPage(History(table, other), page, limit), roomId, readerId)
            && (other != roomId ==> History(after, other) == History(table, other))
  {
    MarkReadHistory(table, roomId, readerId, other);
    MarkReadHistory(table, roomId, readerId, roomId);
    HistoryIn(MarkRead(table, roomId, readerId), roomId);
    SkipNonNegative(page, limit);
  }

  /* ---- Pages fetched while messages are saved ---- */

  /** Message `i` of a history of `n` is among those of the page. */
  predicate OnPage(n: nat, page: nat, limit: nat, i: int)
    requires page >= 1
  {
    FromEnd(n, page * limit) <= i < FromEnd(n, SkipOf(page, limit))
  }

  lemma QuotientIs(a: nat, limit: nat, q: nat)
    requires limit >= 1
    ensures a / limit == q <==> q * limit <= a < q * limit + limit
  {
    assert a == a / limit * limit + a % limit;
    if a / limit < q {
      MulMonotone(a / limit + 1, q, limit);
    } else if a / limit > q {
      MulMonotone(q + 1, a / limit, limit);
    }
  }

  /**
   Where a message stands, exactly: after any number of saves in its room, message `i` of what
   was a history of `n` is on page (n + saves - 1 - i) / limit + 1 and on no other.
   */
  lemma OnPageIff(n: nat, saves: nat, page: nat, limit: nat, i: nat)
    requires page >= 1 && limit >= 1 && i < n
    ensures OnPage(n + saves, page, limit, i) <==> page == (n + saves - 1 - i) / limit + 1
  {
    SkipNonNegative(page, limit);
    QuotientIs(n + saves - 1 - i, limit, page - 1);
  }

  /** How far a place in `a + b` reaches into `b`. */
  function Beyond(place: nat, length: nat): nat {
    if place < length then 0 else place - length
  }

  lemma SliceJoin<T>(a: seq<T>, b: seq<T>, lo: nat, hi: nat)
    requires lo <= hi <= |a| + |b|
    ensures (a + b)[lo..hi] == a[Min(lo, |a|)..Min(hi, |a|)] + b[Beyond(lo, |a|)..Beyond(hi, |a|)]
  {
    if hi <= |a| {
      assert (a + b)[lo..hi] == a[lo..hi];
    } else if lo >= |a| {
      assert (a + b)[lo..hi] == b[lo - |a|..hi - |a|];
    } else {
      assert (a + b)[lo..hi] == a[lo..] + b[..hi - |a|];
    }
  }

  lemma PlaceSplits(n: nat, k: nat, skipped: nat)
    ensures Min(FromEnd(n + k, skipped), n) == FromEnd(n, skipped - k)
    ensures Beyond(FromEnd(n + k, skipped), n) == FromEnd(k, skipped)
  {
  }

  /**
   What any page shows after any saves: of the old messages those that stood `|more|` places
   nearer to the end, and of the new ones their own page.
   */
  lemma PageAfterSaves<T>(history: seq<T>, more: seq<T>, page: nat, limit: nat)
    requires page >= 1
    ensures SkipOf(page, limit) >= 0
    ensures ChatPage(history + more, page, limit)
         == history[FromEnd(|history|, page * limit - |more|)..FromEnd(|history|, SkipOf(page, limit) - |more|)]
            + ChatPage(more, page, limit)
  {
    SkipNonNegative(page, limit);
    var n, k, first, last := |history|, |more|, page * limit, SkipOf(page, limit);
    PlaceSplits(n, k, first);
    PlaceSplits(n, k, last);
    SliceJoin(history, more, FromEnd(n + k, first), FromEnd(n + k, last));
  }

  lemma SliceOfSlice<T>(xs: seq<T>, lo: nat, hi: nat, a: nat, b: nat)
    requires lo <= a <= b <= hi <= |xs|
    ensures xs[a..b] == xs[lo..hi][a - lo..b - lo]
  {
    var window := xs[lo..hi];
    forall i | 0 <= i < b - a ensures xs[a..b][i] == window[a - lo..b - lo][i] {
      assert window[a - lo + i] == xs[a + i];
    }
  }

  /**
   So a reader who has fetched one page and then fetches the next, after no more saves than a
   page holds, sees the oldest messages of the first page again, as many as were saved, and
   misses the oldest ones of the page that was next; no message is skipped in between.
   */
  lemma NextPageRepeats<T>(history: seq<T>, more: seq<T>, page: nat, limit: nat)
    requires page >= 1 && |more| <= limit
    ensures var n, k := |history|, |more|;
            var missed := FromEnd(n, (page + 1) * limit - k) - FromEnd(n, (page + 1) * limit);
            var repeated := FromEnd(n, page * limit - k) - FromEnd(n, page * limit);
            && 0 <= missed <= |ChatPage(history, page + 1, limit)|
            && 0 <= repeated <= |ChatPage(history, page, limit)|
            && (page * limit <= n ==> repeated == k)
            && ChatPage(history + more, page + 1, limit)
                 == ChatPage(history, page + 1, limit)[missed..] + ChatPage(history, page, limit)[..repeated]
  {
    var n, k := |history|, |more|;
    SkipNonNegative(page, limit);
    SkipNonNegative(page + 1, limit);
    MulMonotone(1, page, limit);
    PageAfterSaves(history, more, page + 1, limit);
    assert ChatPage(more, page + 1, limit) == [];
    var low, mid, high := FromEnd(n, (page + 1) * limit - k), FromEnd(n, page * limit), FromEnd(n, page * limit - k);
    assert history[low..high] == history[low..mid] + history[mid..high];
    assert SkipOf(page + 1, limit) == page * limit;
    SliceOfSlice(history, FromEnd(n, (page + 1) * limit), mid, low, mid);
    SliceOfSlice(history, mid, FromEnd(n, SkipOf(page, limit)), mid, high);
  }

  /* ---- Messages saved between the transaction and the update ---- */

  lemma HistoryUnfolds(table: seq<Message>, roomId: RoomId)
    requires table != []
    ensures History(table, roomId) == (if table[0].roomId == roomId then [table[0]] else []) + History(table[1..], roomId)
  {
  }

  lemma JoinAssociates(a: seq<Message>, b: seq<Message>, c: seq<Message>)
    ensures a + (b + c) == (a + b) + c
  {
  }

  lemma {:induction false} HistoryJoin(a: seq<Message>, b: seq<Message>, roomId: RoomId)
    ensures History(a + b, roomId) == History(a, roomId) + History(b, roomId)
  {
    if a == [] {
      assert a + b == b;
    } else {
      HistoryUnfolds(a + b, roomId);
      HistoryUnfolds(a, roomId);
      assert (a + b)[0] == a[0] && (a + b)[1..] == a[1..] + b;
      HistoryJoin(a[1..], b, roomId);
      JoinAssociates(if a[0].roomId == roomId then [a[0]] else [], History(a[1..], roomId), History(b, roomId));
    }
  }

  /** What the reader was shown comes from `table`; what is marked read is all of `table + between`. */
  lemma MarkedAfterSaves(table: seq<Message>, between: seq<Message>, roomId: RoomId, readerId: UserId)
    ensures History(MarkRead(table + between, roomId, readerId), roomId)
         == MarkRead(History(table, roomId), roomId, readerId) + MarkRead(History(between, roomId), roomId, readerId)
  {
    MarkReadHistory(table + between, roomId, readerId, roomId);
    HistoryJoin(table, between, roomId);
    MarkReadJoin(History(table, roomId), History(between, roomId), roomId, readerId);
  }

  /**
   Messages saved between getMessages' transaction and its update keep their flags exactly if
   none of them is another user's message in the room; such a message is marked read unseen.
   */
  lemma UnseenKeptIff(table: seq<Message>, between: seq<Message>, roomId: RoomId, readerId: UserId)
    ensures MarkRead(table + between, roomId, readerId) == MarkRead(table, roomId, readerId) + between
       <==> forall m | m in between :: !Unread(m, roomId, readerId)
  {
    MarkReadJoin(table, between, roomId, readerId);
    var marked := MarkRead(between, roomId, readerId);
    assert (MarkRead(table, roomId, readerId) + marked)[|table|..] == marked;
    assert (MarkRead(table, roomId, readerId) + between)[|table|..] == between;
    if m :| m in between && Unread(m, roomId, readerId) {
      var i :| 0 <= i < |between| && between[i] == m;
      assert marked[i] != between[i];
    } else {
      assert marked == between;
    }
  }

  /* ---- Who has read what ---- */

  datatype Op =
    | Save(roomId: RoomId, senderId: UserId, content: string)
    | Fetch(roomId: RoomId, userId: UserId)

  type Members = set<(UserId, RoomId)>

  /** What saveMessage and getMessages leave of the table; both refuse those who are not members. */
  function Step(members: Members, table: seq<Message>, op: Op): seq<Message> {
    match op
    case Save(roomId, senderId, content) =>
      if (senderId, roomId) in members then table + [Message(roomId, senderId, content, false)] else table
    case Fetch(roomId, userId) =>
      if (userId, roomId) in members then MarkRead(table, roomId, userId) else table
  }

  function Steps(members: Members, table: seq<Message>, ops: seq<Op>): seq<Message>
    decreases |ops|
  {
    if ops == [] then table else Steps(members, Step(members, table, ops[0]), ops[1..])
  }

  /** A member other than the sender fetches the message's room. */
  predicate Reads(members: Members, op: Op, m: Message) {
    op.Fetch? && op.roomId == m.roomId && op.userId != m.senderId && (op.userId, op.roomId) in members
  }

  lemma StepAt(members: Members, table: seq<Message>, op: Op, i: nat)
    requires i < |table|
    ensures i < |Step(members, table, op)|
    ensures Step(members, table, op)[i] == table[i].(isRead := table[i].isRead || Reads(members, op, table[i]))
  {
    if op.Fetch? {
      FlagChangesIff(table, op.roomId, op.userId, i);
    }
  }

  /** Over any operations a message keeps its place and its text, and becomes read by a fetch alone. */
  lemma {:induction false} StepsAt(members: Members, table: seq<Message>, ops: seq<Op>, i: nat)
    requires i < |table|
    ensures i < |Steps(members, table, ops)|
    ensures Steps(members, table, ops)[i]
         == table[i].(isRead := table[i].isRead || exists j :: 0 <= j < |ops| && Reads(members, ops[j], table[i]))
    decreases |ops|
  {
    if ops != [] {
      StepAt(members, table, ops[0], i);
      StepsAt(members, Step(members, table, ops[0]), ops[1..], i);
      var m := table[i];
      if j :| 0 <= j < |ops| && Reads(members, ops[j], m) {
        assert j > 0 ==> Reads(members, ops[1..][j - 1], m);
      }
      if j :| 0 <= j < |ops[1..]| && Reads(members, ops[1..][j], m) {
        assert Reads(members, ops[j + 1], m);
      }
    }
  }

  lemma {:induction false} StepsSplit(members: Members, table: seq<Message>, ops: seq<Op>, k: nat)
    requires k <= |ops|
    ensures Steps(members, table, ops) == Steps(members, Steps(members, table, ops[..k]), ops[k..])
    decreases |ops|
  {
    if k > 0 {
      StepsSplit(members, Step(members, table, ops[0]), ops[1..], k - 1);
      assert ops[..k][1..] == ops[1..][..k - 1] && ops[1..][k - 1..] == ops[k..];
    } else {
      assert ops[..0] == [] && ops[0..] == ops;
    }
  }

  /**
   Read receipts: over every sequence of saves and fetches, a message some operation saved is in
   the table as it was sent, and it is read if and only if a member other than its sender has
   fetched its room since.
   */
  lemma ReadIff(members: Members, ops: seq<Op>, k: nat) returns (i: nat)
    requires k < |ops| && ops[k].Save? && (ops[k].senderId, ops[k].roomId) in members
    ensures i < |Steps(members, [], ops)|
    ensures var m := Steps(members, [], ops)[i];
            && m.roomId == ops[k].roomId && m.senderId == ops[k].senderId && m.content == ops[k].content
            && (m.isRead <==>
                  exists j :: k < j < |ops| && ops[j].Fetch? && ops[j].roomId == m.roomId
                    && ops[j].userId != m.senderId && (ops[j].userId, ops[j].roomId) in members)
  {
    StepsSplit(members, [], ops, k);
    var before := Steps(members, [], ops[..k]);
    i := |before|;
    var after := Step(members, before, ops[k]);
    var rest := ops[k + 1..];
    assert ops[k..][0] == ops[k] && ops[k..][1..] == rest;
    StepsAt(members, after, rest, i);
    var m := after[i];
    if j :| 0 <= j < |rest| && Reads(members, rest[j], m) {
      assert ops[k + 1 + j] == rest[j];
    }
    if j :| k < j < |ops| && Reads(members, ops[j], m) {
      assert rest[j - k - 1] == ops[j];
    }
  }
}
