/**
 * The conversation handlers of routes/chat.js: fetch history
 * (`GET /history/:userId`), send a message (`POST /message`) and delete
 * history (`DELETE /history/:userId`), over an in-memory store of
 * conversation records kept in insertion order.
 */
module ChatRoutes {
  import opened Wrappers
  import opened ChatModel

  /** The conversation collection, in insertion (natural) order. */
  type Store = seq<Conversation>

  /** At most this many records are returned by fetch history. */
  const HistoryLimit: nat := 10

  const DeletedText: string := "Chat history deleted successfully"

  /**
   * The language-model completion call: the user's text goes in, the first
   * choice's reply text comes out, or the call fails with an error message.
   */
  type Completion = string -> Result<string, string>

  /** The clock readings taken during one send: record creation, user turn, reply turn, save. */
  datatype Clock = Clock(created: Instant, asked: Instant, answered: Instant, saved: Instant)

  /** A JSON response of the conversation handlers. */
  datatype ChatResponse =
    | Replied(message: string, chatHistory: seq<Message>)
    | Deleted(message: string)
    | ServerError(message: string)
  {
    function Status(): int {
      if ServerError? then 500 else 200
    }
  }

  /** The store after a handler ran, and what the handler answered. */
  datatype Exchange = Exchange(store: Store, response: ChatResponse)

  // ---------------------------------------------------------------------------
  // Lookup

  function FindFrom(store: Store, userId: string, i: nat): (r: Option<nat>)
    requires i <= |store|
    ensures r.Some? ==> i <= r.value < |store| && store[r.value].userId == userId
    ensures r.Some? ==> forall j | i <= j < r.value :: store[j].userId != userId
    ensures r.None? ==> forall j | i <= j < |store| :: store[j].userId != userId
    decreases |store| - i
  {
    if i == |store| then None
    else if store[i].userId == userId then Some(i)
    else FindFrom(store, userId, i + 1)
  }

  /** `findOne({ userId })`: the position of the first record of the user, if any. */
  function FindOne(store: Store, userId: string): (r: Option<nat>)
    ensures r.Some? ==> r.value < |store| && store[r.value].userId == userId
    ensures r.Some? ==> forall j | 0 <= j < r.value :: store[j].userId != userId
    ensures r.None? <==> forall j | 0 <= j < |store| :: store[j].userId != userId
  {
    FindFrom(store, userId, 0)
  }

  /** The message log a send for `userId` would extend: the found record's, or empty. */
  function LogOf(store: Store, userId: string): seq<Message> {
    match FindOne(store, userId)
    case Some(i) => store[i].messages
    case None => []
  }

  /** Records whose ownership by `userId` equals `mine`, in store order. */
  function Filter(store: Store, userId: string, mine: bool): (r: Store)
    ensures |r| <= |store|
    ensures forall c | c in r :: c in store && (c.userId == userId) == mine
    ensures forall c :: multiset(r)[c] == if (c.userId == userId) == mine then multiset(store)[c] else 0
  {
    if |store| == 0 then []
    else
      assert store == [store[0]] + store[1..];
      var rest := Filter(store[1..], userId, mine);
      if (store[0].userId == userId) == mine then [store[0]] + rest else rest
  }

  // ---------------------------------------------------------------------------
  // Store invariant

  /** No two records share a user id: every user has at most one conversation. */
  predicate UniqueUsers(store: Store) {
    forall i, j | 0 <= i < j < |store| :: store[i].userId != store[j].userId
  }

  /** What `save` guarantees of every stored record, plus at most one record per user. */
  predicate WellFormed(store: Store) {
    && UniqueUsers(store)
    && forall i | 0 <= i < |store| :: HasUserId(store[i])
  }

  // ---------------------------------------------------------------------------
  // POST /message

  /** `save`: write back the found record in place, or insert a new one at the end. */
  function Save(store: Store, at: Option<nat>, chat: Conversation): (r: Store)
    requires at.Some? ==> at.value < |store|
    ensures at.Some? ==> |r| == |store| && r[at.value] == chat
    ensures at.None? ==> |r| == |store| + 1 && r[|store|] == chat
    ensures forall j | 0 <= j < |store| && (at.None? || j != at.value) :: r[j] == store[j]
  {
    if at.Some? then store[at.value := chat] else store + [chat]
  }

  lemma FindOneAfterSave(store: Store, userId: string, chat: Conversation)
    requires chat.userId == userId
    ensures var at := FindOne(store, userId);
      FindOne(Save(store, at, chat), userId) == Some(if at.Some? then at.value else |store|)
  {
    var at := FindOne(store, userId);
    var r := Save(store, at, chat);
    var k := if at.Some? then at.value else |store|;
    assert r[k].userId == userId;
    assert forall j | 0 <= j < k :: r[j] == store[j];
  }

  /**
   * Send a message: find or create the user's record, append the user turn,
   * ask for a completion, append the reply turn, stamp `updatedAt`, save, and
   * answer with the reply and the whole log. A failed completion or a failed
   * validation leaves the store as it was and answers 500 with the error's
   * message.
   */
  function SendMessage(store: Store, userId: string, text: string, complete: Completion, clock: Clock): (r: Exchange)
    ensures r.response.Status() == 500 <==> r.store == store && r.response.ServerError?
    ensures complete(text).Failure? ==> r == Exchange(store, ServerError(complete(text).error))
    ensures complete(text).Success? && |userId| == 0 ==> r == Exchange(store, ServerError(UserIdRequired))
    ensures complete(text).Success? && |userId| > 0 ==>
      var reply := complete(text).value;
      && LogOf(r.store, userId) == LogOf(store, userId) + [Message(text, true, clock.asked), Message(reply, false, clock.answered)]
      && r.response == Replied(reply, LogOf(r.store, userId))
    ensures |r.store| == |store| || (|r.store| == |store| + 1 && FindOne(store, userId).None?)
    ensures forall j | 0 <= j < |store| && store[j].userId != userId :: r.store[j] == store[j]
    ensures forall j | |store| <= j < |r.store| :: r.store[j].userId == userId
  {
    var at := FindOne(store, userId);
    var chat := if at.Some? then store[at.value] else NewConversation(userId, [], clock.created);
    var asked := chat.(messages := chat.messages + [NewMessage(text, true, Some(clock.asked), clock.asked)]);
    match complete(text)
    case Failure(e) => Exchange(store, ServerError(e))
    case Success(reply) =>
      var answered := asked.(
        messages := asked.messages + [NewMessage(reply, false, Some(clock.answered), clock.answered)],
        updatedAt := clock.saved);
      match Validate(answered)
      case Fail(e) => Exchange(store, ServerError(e))
      case Pass =>
        FindOneAfterSave(store, userId, answered);
        var saved := Save(store, at, answered);
        Exchange(saved, Replied(reply, answered.messages))
  }

  /** A user with no record: one new record holding exactly the user turn then the reply turn. */
  lemma FirstSendCreatesRecord(store: Store, userId: string, text: string, complete: Completion, clock: Clock)
    requires FindOne(store, userId).None? && |userId| > 0
    requires complete(text).Success?
    ensures var reply := complete(text).value;
      var turns := [Message(text, true, clock.asked), Message(reply, false, clock.answered)];
      SendMessage(store, userId, text, complete, clock)
        == Exchange(store + [Conversation(userId, turns, clock.created, clock.saved)], Replied(reply, turns))
  {
    var reply := complete(text).value;
    assert [] + [Message(text, true, clock.asked)] + [Message(reply, false, clock.answered)]
      == [Message(text, true, clock.asked), Message(reply, false, clock.answered)];
  }

  /** A user with a record: same number of records, the old log is kept as a prefix and grows by two. */
  lemma SendExtendsExistingLog(store: Store, userId: string, text: string, complete: Completion, clock: Clock)
    requires FindOne(store, userId).Some?
    requires complete(text).Success? && |userId| > 0
    ensures var i := FindOne(store, userId).value;
      var r := SendMessage(store, userId, text, complete, clock).store;
      && |r| == |store|
      && |r[i].messages| == |store[i].messages| + 2
      && r[i].messages[..|store[i].messages|] == store[i].messages
      && r[i].createdAt == store[i].createdAt
      && r[i].updatedAt == clock.saved
  {
  }

  /** Saving only what validated keeps the store well formed. */
  lemma SendPreservesWellFormed(store: Store, userId: string, text: string, complete: Completion, clock: Clock)
    requires WellFormed(store)
    ensures WellFormed(SendMessage(store, userId, text, complete, clock).store)
  {
    var r := SendMessage(store, userId, text, complete, clock).store;
    if r != store {
      var at := FindOne(store, userId);
      assert |userId| > 0;
      if at.Some? {
        assert forall j | 0 <= j < |r| :: r[j].userId == store[j].userId;
      } else {
        assert r == store + [r[|store|]];
      }
    }
  }

  // ---------------------------------------------------------------------------
  // A run of sends

  /**
   * One `POST /message` of a run: the text, the completion service as it
   * answers at that moment, and the clock readings of that request.
   */
  datatype Ask = Ask(text: string, complete: Completion, clock: Clock)

  /** The store after sending the asks one after another. */
  function SendAll(store: Store, userId: string, asks: seq<Ask>): Store
    decreases |asks|
  {
    if |asks| == 0 then store
    else SendAll(SendMessage(store, userId, asks[0].text, asks[0].complete, asks[0].clock).store, userId, asks[1..])
  }

  /** Whether an ask gets a reply. */
  predicate Answered(a: Ask) {
    a.complete(a.text).Success?
  }

  /** The reply an answered ask got. */
  function Reply(a: Ask): string
    requires Answered(a)
  {
    a.complete(a.text).value
  }

  /** The turns one send adds to the log: the pair when the completion succeeds, nothing otherwise. */
  function TurnPair(a: Ask): seq<Message> {
    match a.complete(a.text)
    case Success(reply) => [Message(a.text, true, a.clock.asked), Message(reply, false, a.clock.answered)]
    case Failure(_) => []
  }

  /** Reference definition of the turns a run of sends adds, independent of the store. */
  function Turns(asks: seq<Ask>): seq<Message>
    decreases |asks|
  {
    if |asks| == 0 then [] else TurnPair(asks[0]) + Turns(asks[1..])
  }

  /** How many of the asks get a reply. */
  function Successes(asks: seq<Ask>): nat
    decreases |asks|
  {
    if |asks| == 0 then 0 else (if Answered(asks[0]) then 1 else 0) + Successes(asks[1..])
  }

  /** An even-length log whose turns alternate user, reply, user, reply, ... */
  predicate Alternating(log: seq<Message>) {
    && |log| % 2 == 0
    && forall i | 0 <= i < |log| :: log[i].isUser == (i % 2 == 0)
  }

  lemma AlternatingConcat(a: seq<Message>, b: seq<Message>)
    requires Alternating(a) && Alternating(b)
    ensures Alternating(a + b)
  {
    forall i | 0 <= i < |a + b|
      ensures (a + b)[i].isUser == (i % 2 == 0)
    {
      if i >= |a| {
        assert (a + b)[i] == b[i - |a|];
        assert (i - |a|) % 2 == i % 2;
      }
    }
  }

  /** The log a run of sends adds is the reference `Turns`, whatever the store holds. */
  lemma {:induction false} SendAllAppendsTurns(store: Store, userId: string, asks: seq<Ask>)
    requires |userId| > 0
    ensures LogOf(SendAll(store, userId, asks), userId) == LogOf(store, userId) + Turns(asks)
    decreases |asks|
  {
    if |asks| > 0 {
      var a := asks[0];
      var next := SendMessage(store, userId, a.text, a.complete, a.clock).store;
      assert LogOf(next, userId) == LogOf(store, userId) + TurnPair(a);
      SendAllAppendsTurns(next, userId, asks[1..]);
    }
  }

  /** The added turns alternate, two per answered ask. */
  lemma {:induction false} TurnsAlternate(asks: seq<Ask>)
    ensures Alternating(Turns(asks))
    ensures |Turns(asks)| == 2 * Successes(asks)
    decreases |asks|
  {
    if |asks| > 0 {
      TurnsAlternate(asks[1..]);
      AlternatingConcat(TurnPair(asks[0]), Turns(asks[1..]));
    }
  }

  /** When every ask is answered, turn 2k is text k and turn 2k+1 is the reply it got. */
  lemma {:induction false} TurnsContents(asks: seq<Ask>)
    requires forall k | 0 <= k < |asks| :: Answered(asks[k])
    ensures var log := Turns(asks);
      && |log| == 2 * |asks|
      && forall k | 0 <= k < |asks| ::
        && log[2 * k] == Message(asks[k].text, true, asks[k].clock.asked)
        && log[2 * k + 1] == Message(Reply(asks[k]), false, asks[k].clock.answered)
    decreases |asks|
  {
    if |asks| > 0 {
      var rest := Turns(asks[1..]);
      TurnsContents(asks[1..]);
      var log := Turns(asks);
      assert log == TurnPair(asks[0]) + rest;
      forall k | 1 <= k < |asks|
        ensures log[2 * k] == Message(asks[k].text, true, asks[k].clock.asked)
        ensures log[2 * k + 1] == Message(Reply(asks[k]), false, asks[k].clock.answered)
      {
        assert log[2 * k] == rest[2 * (k - 1)];
        assert log[2 * k + 1] == rest[2 * (k - 1) + 1];
        assert asks[1..][k - 1] == asks[k];
      }
    }
  }

  /**
   * N answered sends for a user with no log yield 2N turns, alternating user
   * and reply starting with the user, holding each text followed by its reply.
   */
  lemma SendAllFromEmpty(store: Store, userId: string, asks: seq<Ask>)
    requires |userId| > 0
    requires FindOne(store, userId).None?
    requires forall k | 0 <= k < |asks| :: Answered(asks[k])
    ensures var log := LogOf(SendAll(store, userId, asks), userId);
      && |log| == 2 * |asks|
      && Alternating(log)
      && forall k | 0 <= k < |asks| ::
        log[2 * k].content == asks[k].text && log[2 * k + 1].content == Reply(asks[k])
  {
    SendAllAppendsTurns(store, userId, asks);
    TurnsAlternate(asks);
    TurnsContents(asks);
  }

  /**
   * A failed send leaves no trace: retrying the same text later, when the
   * service answers, logs exactly the one pair of the retry.
   */
  lemma RetryAfterFailure(store: Store, userId: string, text: string, failing: Completion, answering: Completion,
                          first: Clock, second: Clock)
    requires |userId| > 0
    requires failing(text).Failure? && answering(text).Success?
    ensures LogOf(SendAll(store, userId, [Ask(text, failing, first), Ask(text, answering, second)]), userId)
      == LogOf(store, userId)
         + [Message(text, true, second.asked), Message(answering(text).value, false, second.answered)]
  {
    var asks := [Ask(text, failing, first), Ask(text, answering, second)];
    SendAllAppendsTurns(store, userId, asks);
    assert TurnPair(asks[0]) == [];
    assert Turns(asks) == Turns(asks[1..]);
    assert asks[1..][1..] == [];
  }

  // ---------------------------------------------------------------------------
  // GET /history/:userId

  /** Most recently updated first. */
  predicate NewestFirst(s: seq<Conversation>) {
    forall i, j | 0 <= i < j < |s| :: s[i].updatedAt >= s[j].updatedAt
  }

  function Insert(c: Conversation, s: seq<Conversation>): (r: seq<Conversation>)
    requires NewestFirst(s)
    ensures NewestFirst(r)
    ensures multiset(r) == multiset(s) + multiset{c}
    ensures |r| == |s| + 1
    ensures forall i | 0 <= i < |r| :: r[i] == c || r[i] in s
  {
    if |s| == 0 || c.updatedAt >= s[0].updatedAt then [c] + s
    else
      assert s == [s[0]] + s[1..];
      [s[0]] + Insert(c, s[1..])
  }

  /** `sort({ updatedAt: -1 })`, by insertion: a rearrangement of `s`, newest first. */
  function SortNewestFirst(s: seq<Conversation>): (r: seq<Conversation>)
    ensures NewestFirst(r)
    ensures multiset(r) == multiset(s)
    ensures |r| == |s|
  {
    if |s| == 0 then []
    else
      assert s == [s[0]] + s[1..];
      Insert(s[0], SortNewestFirst(s[1..]))
  }

  /** The first `k` of a newest-first sequence are at least as new as every record left out. */
  lemma TakeNewest(s: seq<Conversation>, k: nat)
    requires NewestFirst(s) && k <= |s|
    ensures forall c | multiset(s[..k])[c] < multiset(s)[c] ::
      forall i | 0 <= i < k :: c.updatedAt <= s[i].updatedAt
  {
    assert s == s[..k] + s[k..];
    forall c | multiset(s[..k])[c] < multiset(s)[c]
      ensures forall i | 0 <= i < k :: c.updatedAt <= s[i].updatedAt
    {
      assert multiset(s)[c] == multiset(s[..k])[c] + multiset(s[k..])[c];
      assert c in s[k..];
      var j :| k <= j < |s| && s[j] == c;
    }
  }

  function Min(a: int, b: int): int {
    if a <= b then a else b
  }

  /** The facts about the first `k` of a newest-first rearrangement of `mine` that fetch history promises. */
  lemma NewestPrefix(mine: seq<Conversation>, sorted: seq<Conversation>, k: nat)
    requires NewestFirst(sorted) && multiset(sorted) == multiset(mine) && k <= |sorted|
    ensures NewestFirst(sorted[..k])
    ensures multiset(sorted[..k]) <= multiset(mine)
    ensures forall i | 0 <= i < k :: sorted[..k][i] in mine
    ensures forall c | multiset(sorted[..k])[c] < multiset(mine)[c] ::
      forall i | 0 <= i < k :: c.updatedAt <= sorted[..k][i].updatedAt
  {
    TakeNewest(sorted, k);
    assert sorted == sorted[..k] + sorted[k..];
    forall i | 0 <= i < k
      ensures sorted[..k][i] in mine
    {
      assert sorted[i] in multiset(mine);
    }
  }

  /**
   * Fetch history: the user's records, newest first, at most ten. Every
   * record of the user that is left out is no newer than any returned one.
   */
  function FetchHistory(store: Store, userId: string): (r: seq<Conversation>)
    ensures |r| == Min(HistoryLimit, |Filter(store, userId, true)|)
    ensures forall i | 0 <= i < |r| :: r[i].userId == userId && r[i] in store
    ensures NewestFirst(r)
    ensures multiset(r) <= multiset(Filter(store, userId, true))
    ensures forall c | multiset(r)[c] < multiset(Filter(store, userId, true))[c] ::
      forall i | 0 <= i < |r| :: c.updatedAt <= r[i].updatedAt
  {
    var mine := Filter(store, userId, true);
    var sorted := SortNewestFirst(mine);
    var k := Min(HistoryLimit, |sorted|);
    NewestPrefix(mine, sorted, k);
    sorted[..k]
  }

  /** A user with at most one record (the well-formed case) gets at most one back. */
  lemma UniqueUserFetchesAtMostOne(store: Store, userId: string)
    requires UniqueUsers(store)
    ensures |FetchHistory(store, userId)| <= 1
  {
    AtMostOneOwned(store, userId);
  }

  lemma {:induction false} AtMostOneOwned(store: Store, userId: string)
    requires UniqueUsers(store)
    ensures |Filter(store, userId, true)| <= 1
    decreases |store|
  {
    if |store| > 0 {
      AtMostOneOwned(store[1..], userId);
      if store[0].userId == userId {
        var rest := Filter(store[1..], userId, true);
        if |rest| > 0 {
          assert rest[0] in store[1..];
        }
      }
    }
  }

  // ---------------------------------------------------------------------------
  // DELETE /history/:userId

  /** `deleteMany({ userId })`: every record of the user goes, every other record stays. */
  function DeleteHistory(store: Store, userId: string): (r: Exchange)
    ensures r.response == Deleted(DeletedText) && r.response.Status() == 200
    ensures forall c :: multiset(r.store)[c] == if c.userId == userId then 0 else multiset(store)[c]
    ensures FindOne(r.store, userId).None?
  {
    var kept := Filter(store, userId, false);
    assert forall j | 0 <= j < |kept| :: kept[j] in kept;
    Exchange(kept, Deleted(DeletedText))
  }

  /** After deleting a user's history, fetching it gives nothing and the next send starts afresh. */
  lemma DeleteThenFetchIsEmpty(store: Store, userId: string)
    ensures var after := DeleteHistory(store, userId).store;
      FetchHistory(after, userId) == [] && LogOf(after, userId) == []
  {
    var after := DeleteHistory(store, userId).store;
    var mine := Filter(after, userId, true);
    assert multiset(mine) == multiset{};
  }

  lemma {:induction false} FilterOtherUser(store: Store, u: string, v: string)
    requires u != v
    ensures Filter(Filter(store, u, false), v, true) == Filter(store, v, true)
    decreases |store|
  {
    if |store| > 0 {
      FilterOtherUser(store[1..], u, v);
      if store[0].userId != u {
        assert Filter(store, u, false) == [store[0]] + Filter(store[1..], u, false);
        assert ([store[0]] + Filter(store[1..], u, false))[1..] == Filter(store[1..], u, false);
      }
    }
  }

  /** Deleting one user's history changes no other user's fetched history. */
  lemma DeleteKeepsOtherHistories(store: Store, u: string, v: string)
    requires u != v
    ensures FetchHistory(DeleteHistory(store, u).store, v) == FetchHistory(store, v)
  {
    FilterOtherUser(store, u, v);
  }

  lemma ConsUnique(x: Conversation, rest: Store)
    requires UniqueUsers(rest)
    requires forall c | c in rest :: c.userId != x.userId
    ensures UniqueUsers([x] + rest)
  {
    var r := [x] + rest;
    forall i, j | 0 <= i < j < |r|
      ensures r[i].userId != r[j].userId
    {
      assert r[j] == rest[j - 1];
      if i > 0 {
        assert r[i] == rest[i - 1];
      } else {
        assert rest[j - 1] in rest;
      }
    }
  }

  lemma {:induction false} FilterKeepsUnique(store: Store, userId: string, mine: bool)
    requires UniqueUsers(store)
    ensures UniqueUsers(Filter(store, userId, mine))
    decreases |store|
  {
    if |store| > 0 {
      assert UniqueUsers(store[1..]);
      FilterKeepsUnique(store[1..], userId, mine);
      var rest := Filter(store[1..], userId, mine);
      if (store[0].userId == userId) == mine {
        forall c | c in rest
          ensures c.userId != store[0].userId
        {
          var j :| 0 <= j < |store[1..]| && store[1..][j] == c;
          assert store[j + 1] == c;
        }
        ConsUnique(store[0], rest);
      }
    }
  }

  /** Deleting keeps the store well formed. */
  lemma DeletePreservesWellFormed(store: Store, userId: string)
    requires WellFormed(store)
    ensures WellFormed(DeleteHistory(store, userId).store)
  {
    FilterKeepsUnique(store, userId, false);
    var kept := DeleteHistory(store, userId).store;
    forall i | 0 <= i < |kept|
      ensures HasUserId(kept[i])
    {
      assert kept[i] in kept;
    }
  }
}
