/** The direct-message history of `/api/messages/:friendId` (server.js:425-452):
    filter the conversation, sort it by time, keep the last 100, and show
    user names in place of user ids. */
module History {
  import opened Wrappers
  import opened Entities
  import opened Arrays

  /** The length of the history window (`slice(-100)`, server.js:433). */
  const HistoryLimit: nat := 100

  /** `m` was sent between `u` and `f`, in either direction (server.js:429-430). */
  predicate InConversation(m: Message, u: UserId, f: UserId) {
    (m.from == u && m.to == f) || (m.from == f && m.to == u)
  }

  /** The conversation between `u` and `f`, in storage order. */
  function Conversation(msgs: seq<Message>, u: UserId, f: UserId): (c: seq<Message>)
    ensures forall m :: m in c <==> m in msgs && ((m.from == u && m.to == f) || (m.from == f && m.to == u))
  {
    Filter(msgs, (m: Message) => InConversation(m, u, f))
  }

  ghost predicate SortedByTime(s: seq<Message>) {
    forall i, j :: 0 <= i < j < |s| ==> s[i].timestamp <= s[j].timestamp
  }

  /** A message no later than the head of a time-ordered sequence can be
      put in front of it. */
  lemma PrependSorted(m: Message, s: seq<Message>)
    ensures SortedByTime(s) && (s != [] ==> m.timestamp <= s[0].timestamp) ==> SortedByTime([m] + s)
  {
    var r := [m] + s;
    forall i, j | 0 <= i < j < |r| && SortedByTime(s) && (s != [] ==> m.timestamp <= s[0].timestamp)
      ensures r[i].timestamp <= r[j].timestamp
    {
      if i == 0 {
        assert r[j] == s[j - 1];
      } else {
        assert r[i] == s[i - 1] && r[j] == s[j - 1];
      }
    }
  }

  /** Inserts `m` before the first later message: a step of a stable sort. */
  function Insert(m: Message, s: seq<Message>): (r: seq<Message>)
    ensures |r| == |s| + 1
    ensures multiset(r) == multiset(s) + multiset{m}
    ensures r[0] == m || (s != [] && r[0] == s[0])
    ensures SortedByTime(s) ==> SortedByTime(r)
  {
    if s == [] || m.timestamp <= s[0].timestamp then
      PrependSorted(m, s);
      [m] + s
    else
      assert s == [s[0]] + s[1..];
      var rest := Insert(m, s[1..]);
      assert SortedByTime(s) ==> SortedByTime(s[1..]);
      PrependSorted(s[0], rest);
      [s[0]] + rest
  }

  /** `sort((a, b) => a.timestamp - b.timestamp)`: ascending by timestamp,
      and a permutation of its input. */
  function SortByTime(s: seq<Message>): (r: seq<Message>)
    ensures |r| == |s|
    ensures multiset(r) == multiset(s)
    ensures SortedByTime(r)
  {
    if s == [] then []
    else
      assert s == [s[0]] + s[1..];
      Insert(s[0], SortByTime(s[1..]))
  }

  /** `slice(-n)`: the last `n` elements, or all of them when there are fewer. */
  function TakeLast(s: seq<Message>, n: nat): seq<Message> {
    if |s| <= n then s else s[|s| - n..]
  }

  /** The last `n` elements of a time-ordered sequence are time-ordered and
      drawn from it. */
  lemma TakeLastOfSorted(s: seq<Message>, n: nat)
    ensures |TakeLast(s, n)| <= n
    ensures SortedByTime(s) ==> SortedByTime(TakeLast(s, n))
    ensures forall k :: 0 <= k < |TakeLast(s, n)| ==> TakeLast(s, n)[k] in multiset(s)
  {
    var r := TakeLast(s, n);
    forall k | 0 <= k < |r| ensures r[k] == s[|s| - |r| + k] && r[k] in multiset(s) {
    }
  }

  /** The stored messages the history route returns, before names are attached. */
  function History(msgs: seq<Message>, u: UserId, f: UserId): (r: seq<Message>)
    ensures |r| <= HistoryLimit
    ensures SortedByTime(r)
    ensures forall k :: 0 <= k < |r| ==> InConversation(r[k], u, f) && r[k] in msgs
  {
    var c := Conversation(msgs, u, f);
    var sorted := SortByTime(c);
    TakeLastOfSorted(sorted, HistoryLimit);
    assert forall x :: x in multiset(sorted) ==> x in c;
    TakeLast(sorted, HistoryLimit)
  }

  /** In a time-ordered sequence, everything before position `lo` is no
      later than anything from `lo` on. */
  lemma SortedSplit(s: seq<Message>, lo: nat)
    requires SortedByTime(s) && lo <= |s|
    ensures forall i, k :: 0 <= i < lo && 0 <= k < |s| - lo ==>
      s[i].timestamp <= s[lo..][k].timestamp
  {
    forall i, k | 0 <= i < lo && 0 <= k < |s| - lo
      ensures s[i].timestamp <= s[lo..][k].timestamp
    {
      assert s[lo..][k] == s[lo + k];
    }
  }

  /** The history is `slice(-100)` of the sorted conversation. */
  lemma HistoryIsLastOfSorted(msgs: seq<Message>, u: UserId, f: UserId)
    ensures History(msgs, u, f) == TakeLast(SortByTime(Conversation(msgs, u, f)), HistoryLimit)
  {
  }

  /** `r` is the last `min(|s|, n)` elements of `s`, and every element of
      `s` before them is no later than any of them. */
  ghost predicate MostRecent(r: seq<Message>, s: seq<Message>, n: nat) {
    && |r| == (if |s| <= n then |s| else n)
    && r == s[|s| - |r|..]
    && forall i, k :: 0 <= i < |s| - |r| && 0 <= k < |r| ==> s[i].timestamp <= r[k].timestamp
  }

  /** Of a time-ordered sequence, `slice(-n)` keeps the most recent `n`
      elements. */
  lemma TakeLastKeepsMostRecent(s: seq<Message>, n: nat)
    requires SortedByTime(s)
    ensures MostRecent(TakeLast(s, n), s, n)
  {
    SortedSplit(s, |s| - |TakeLast(s, n)|);
  }

  /** The history is the most recent part of the time-ordered conversation:
      as many messages as the conversation has, up to 100, and every message
      of the conversation left out is no later than any message kept. */
  lemma {:induction false} HistoryKeepsMostRecent(msgs: seq<Message>, u: UserId, f: UserId)
    ensures multiset(SortByTime(Conversation(msgs, u, f))) == multiset(Conversation(msgs, u, f))
    ensures MostRecent(History(msgs, u, f), SortByTime(Conversation(msgs, u, f)), HistoryLimit)
  {
    HistoryIsLastOfSorted(msgs, u, f);
    TakeLastKeepsMostRecent(SortByTime(Conversation(msgs, u, f)), HistoryLimit);
  }

  /** With at most 100 messages in the conversation, the history holds every
      one of them, each as often as it is stored. */
  lemma ShortHistoryIsComplete(msgs: seq<Message>, u: UserId, f: UserId)
    requires |Conversation(msgs, u, f)| <= HistoryLimit
    ensures forall m ::
      multiset(History(msgs, u, f))[m] == (if InConversation(m, u, f) then multiset(msgs)[m] else 0)
  {
    var c := Conversation(msgs, u, f);
    assert History(msgs, u, f) == SortByTime(c);
  }

  /** A stored message as a client sees it (server.js:436-444 and 549-555):
      `None` when its sender or its addressee is not a stored user. */
  function ViewOf(users: seq<User>, m: Message): (v: Option<MessageView>)
    ensures v.Some? <==> UserById(users, m.from).Some? && UserById(users, m.to).Some?
    ensures v.Some? ==>
      && v.value.id == m.id && v.value.body == m.body && v.value.timestamp == m.timestamp
      && v.value.fromName == users[UserById(users, m.from).value].username
      && v.value.toName == users[UserById(users, m.to).value].username
  {
    match (UserById(users, m.from), UserById(users, m.to))
    case (Some(i), Some(j)) =>
      Some(MessageView(m.id, users[i].username, users[j].username, m.body, m.timestamp))
    case _ => None
  }

  /** `GET /api/messages/:friendId` for the caller `u`: the history with
      names attached, or a server error when one of its users is missing. */
  function MessagesRoute(users: seq<User>, msgs: seq<Message>, u: UserId, friendId: UserId)
    : (r: Result<seq<MessageView>, ApiError>)
    ensures r.Failure? ==> r.error == ServerError
    ensures r.Success? <==> forall k :: 0 <= k < |History(msgs, u, friendId)| ==>
      ViewOf(users, History(msgs, u, friendId)[k]).Some?
    ensures r.Success? ==> |r.value| == |History(msgs, u, friendId)| <= HistoryLimit
    ensures r.Success? ==> forall k :: 0 <= k < |r.value| ==>
      ViewOf(users, History(msgs, u, friendId)[k]) == Some(r.value[k])
  {
    match MapAll(History(msgs, u, friendId), (m: Message) => ViewOf(users, m))
    case Some(views) => Success(views)
    case None => Failure(ServerError)
  }
}
