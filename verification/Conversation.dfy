/** The in-memory conversation store: messages by key, and the keys of each thread in order of arrival. */
module Conversation {
  import opened Options
  import opened Text
  import opened Sorting

  type Key = string

  /** A stored message; `time` is its creation time. */
  datatype Message = Message(tenant: string, conversationID: string, threadID: string, messageID: string,
                             messageThreadID: string, text: string, speakerID: string, speakerType: string, time: int,
                             metadata: string)

  datatype Result = Stored | AlreadyStored | Invalid | Conflict

  function ThreadKey(tenant: string, conversationID: string, threadID: string): Key {
    Join3(tenant, conversationID, threadID)
  }

  function MessageKey(m: Message): Key {
    Join3(m.tenant, m.conversationID, m.messageID)
  }

  function ThreadOf(m: Message): Key {
    ThreadKey(m.tenant, m.conversationID, m.threadID)
  }

  predicate Complete(m: Message) {
    m.tenant != "" && TrimSpace(m.conversationID) != "" && TrimSpace(m.messageID) != ""
  }

  /** A blank thread is the conversation itself, and a blank message thread the thread. */
  function Normalize(m: Message): Message {
    var thread := if TrimSpace(m.threadID) == "" then m.conversationID else m.threadID;
    var messageThread := if TrimSpace(m.messageThreadID) == "" then thread else m.messageThreadID;
    m.(threadID := thread, messageThreadID := messageThread)
  }

  predicate SameMessage(a: Message, b: Message) {
    && a.threadID == b.threadID && a.text == b.text && a.speakerID == b.speakerID && a.speakerType == b.speakerType
    && a.messageThreadID == b.messageThreadID
  }

  // ----- states -------------------------------------------------------------

  datatype State = State(messages: map<Key, Message>, order: map<Key, seq<Key>>)

  function OrderOf(s: State, thread: Key): seq<Key> {
    if thread in s.order then s.order[thread] else []
  }

  function Append(s: State, m: Message): (State, Result) {
    if !Complete(m) then (s, Invalid)
    else
      var message := Normalize(m);
      var key := MessageKey(message);
      if key in s.messages then (s, if SameMessage(s.messages[key], message) then AlreadyStored else Conflict)
      else
        var thread := ThreadOf(message);
        (State(s.messages[key := message], s.order[thread := OrderOf(s, thread) + [key]]), Stored)
  }

  /** Every message is stored under its key, and each order list holds, once each, exactly the keys of
      the messages of its thread. */
  ghost predicate Indexed(s: State) {
    && (forall k :: k in s.messages ==> MessageKey(s.messages[k]) == k)
    && (forall t :: NoRepeats(OrderOf(s, t)))
    && (forall t, k :: k in OrderOf(s, t) <==> k in s.messages && ThreadOf(s.messages[k]) == t)
  }

  lemma AppendKeepsIndexed(s: State, m: Message)
    requires Indexed(s)
    ensures Indexed(Append(s, m).0)
  {
    var (s', r) := Append(s, m);
    if r == Stored {
      var message := Normalize(m);
      var key, thread := MessageKey(message), ThreadOf(message);
      assert key !in OrderOf(s, thread);
      forall t ensures NoRepeats(OrderOf(s', t)) {
        AppendNoRepeats(OrderOf(s, thread), key);
        assert OrderOf(s', t) == if t == thread then OrderOf(s, t) + [key] else OrderOf(s, t);
      }
      forall t, k ensures k in OrderOf(s', t) <==> k in s'.messages && ThreadOf(s'.messages[k]) == t {
        assert key !in OrderOf(s, t);
        assert OrderOf(s', t) == if t == thread then OrderOf(s, t) + [key] else OrderOf(s, t);
      }
    }
  }

  /** What one append does: an incomplete message, a repetition or a conflict leaves everything as it
      was; otherwise one message is added under a new key and the stored ones are kept.  It is accepted
      as a repetition exactly when its thread, text and speaker are those stored under its key. */
  lemma AppendIsExact(s: State, m: Message)
    ensures var (s', r) := Append(s, m);
            var key := MessageKey(Normalize(m));
            && (r == Invalid <==> !Complete(m))
            && (r == Stored <==> Complete(m) && key !in s.messages)
            && (r == AlreadyStored <==> Complete(m) && key in s.messages && SameMessage(s.messages[key], Normalize(m)))
            && (r != Stored ==> s' == s)
            && (r == Stored ==> s'.messages == s.messages[key := Normalize(m)])
            && (forall k :: k in s.messages ==> k in s'.messages && s'.messages[k] == s.messages[k])
  {
  }

  lemma KeyIs(m: Message)
    ensures MessageKey(m) == m.tenant + "\0" + m.conversationID + "\0" + m.messageID
  {
  }

  /** On the message's own fields: what is stored for it, and what makes it a repetition. */
  lemma AppendStores(s: State, m: Message)
    ensures var (s', r) := Append(s, m);
            var key := m.tenant + "\0" + m.conversationID + "\0" + m.messageID;
            var thread := if TrimSpace(m.threadID) == "" then m.conversationID else m.threadID;
            var own := if TrimSpace(m.messageThreadID) == "" then thread else m.messageThreadID;
            && (r == Invalid <==> m.tenant == "" || TrimSpace(m.conversationID) == "" || TrimSpace(m.messageID) == "")
            && (r == Stored ==>
                  key !in s.messages
                  && s'.messages == s.messages[key := m.(threadID := thread, messageThreadID := own)])
            && (r == AlreadyStored || r == Conflict ==> key in s.messages)
            && (r == AlreadyStored || r == Conflict ==>
                  var was := s.messages[key];
                  (r == AlreadyStored <==>
                   was.threadID == thread && was.messageThreadID == own && was.text == m.text
                   && was.speakerID == m.speakerID && was.speakerType == m.speakerType))
  {
    KeyIs(Normalize(m));
  }

  function Run(s: State, appends: seq<Message>): State
    decreases |appends|
  {
    if appends == [] then s else Run(Append(s, appends[0]).0, appends[1..])
  }

  const EMPTY := State(map[], map[])

  /** After any sequence of appends to an empty store the order lists index the messages exactly, and
      what was stored on the way is stored unchanged. */
  lemma {:induction false} RunKeepsIndexed(s: State, appends: seq<Message>)
    requires Indexed(s)
    ensures Indexed(Run(s, appends))
    ensures forall k :: k in s.messages ==>
              k in Run(s, appends).messages && Run(s, appends).messages[k] == s.messages[k]
    decreases |appends|
  {
    if appends != [] {
      AppendKeepsIndexed(s, appends[0]);
      AppendIsExact(s, appends[0]);
      RunKeepsIndexed(Append(s, appends[0]).0, appends[1..]);
    }
  }

  /** Appending the same message again, at any later time, is a no-op. */
  lemma AppendTwice(s: State, m: Message, later: seq<Message>)
    requires Indexed(s) && Append(s, m).1 == Stored
    ensures var s' := Run(Append(s, m).0, later);
            Append(s', m) == (s', AlreadyStored)
  {
    var s1 := Append(s, m).0;
    AppendKeepsIndexed(s, m);
    RunKeepsIndexed(s1, later);
    assert MessageKey(Normalize(m)) in s1.messages;
  }

  /** For ids without NUL a list belongs to one thread: a key is in the list of a tenant, conversation
      and thread exactly when that very thread has a message stored under the key. */
  lemma ListsAreThreads(s: State, tenant: string, conversationID: string, threadID: string, k: Key)
    requires Indexed(s)
    requires NulFree(tenant) && NulFree(conversationID)
    requires forall j :: j in s.messages ==> NulFree(s.messages[j].tenant) && NulFree(s.messages[j].conversationID)
    ensures k in OrderOf(s, ThreadKey(tenant, conversationID, threadID)) <==>
            k in s.messages && s.messages[k].tenant == tenant && s.messages[k].conversationID == conversationID
            && s.messages[k].threadID == threadID
  {
    if k in OrderOf(s, ThreadKey(tenant, conversationID, threadID)) {
      var m := s.messages[k];
      Join3Injective(m.tenant, m.conversationID, m.threadID, tenant, conversationID, threadID);
    }
  }

  /** With NUL in ids two threads can share a list. */
  lemma NulJoinsThreads()
    ensures ThreadKey("t", "a\0b", "c") == ThreadKey("t", "a", "b\0c")
  {
    assert Join2("a\0b", "c") == Join2("a", "b\0c");
  }

  // ----- recent messages ----------------------------------------------------

  /** A key with the time of its message. */
  datatype Entry = Entry(time: int, key: Key)

  predicate Earlier(a: Entry, b: Entry) {
    a.time < b.time || (a.time == b.time && Less(a.key, b.key))
  }

  function Entries(s: State, keys: seq<Key>): seq<Entry>
    requires forall k :: k in keys ==> k in s.messages
  {
    seq(|keys|, i requires 0 <= i < |keys| => Entry(s.messages[keys[i]].time, keys[i]))
  }

  /** The thread's messages sorted by time, then key. */
  function Timeline(s: State, thread: Key): seq<Entry>
    requires forall k :: k in OrderOf(s, thread) ==> k in s.messages
  {
    Sort(Entries(s, OrderOf(s, thread)), Earlier)
  }

  function Last<T>(s: seq<T>, limit: int): seq<T> {
    if limit > 0 && |s| > limit then s[|s| - limit..] else s
  }

  /** The keys whose messages RecentMessages returns, in order. */
  function Recent(s: State, thread: Key, limit: int): seq<Entry>
    requires forall k :: k in OrderOf(s, thread) ==> k in s.messages
  {
    Last(Timeline(s, thread), limit)
  }

  lemma EarlierIsWeakOrder()
    ensures WeakOrder(Earlier)
  {
    LessIsStrictTotalOrder();
  }

  lemma EntriesTieless(s: State, keys: seq<Key>)
    requires forall k :: k in keys ==> k in s.messages
    ensures Tieless(Entries(s, keys), Earlier)
  {
    LessIsStrictTotalOrder();
    var es := Entries(s, keys);
    forall a, b | a in es && b in es && a != b ensures Earlier(a, b) || Earlier(b, a) {
      assert a.key == b.key ==> a == b;
    }
  }

  /** The timeline is the thread's messages, each once. */
  lemma TimelineHolds(s: State, thread: Key)
    requires Indexed(s)
    ensures |Timeline(s, thread)| == |OrderOf(s, thread)|
    ensures forall e :: e in Timeline(s, thread) <==>
              e.key in s.messages && ThreadOf(s.messages[e.key]) == thread && e.time == s.messages[e.key].time
  {
    var keys := OrderOf(s, thread);
    SortElements(Entries(s, keys), Earlier);
    EntriesHold(s, keys);
    forall e ensures e in Timeline(s, thread) <==>
              e.key in s.messages && ThreadOf(s.messages[e.key]) == thread && e.time == s.messages[e.key].time
    {
      assert e.key in keys <==> e.key in s.messages && ThreadOf(s.messages[e.key]) == thread;
    }
  }

  lemma LastOfIncreasing(t: seq<Entry>, limit: int)
    requires forall i, j :: 0 <= i < j < |t| ==> Earlier(t[i], t[j])
    ensures var last := Last(t, limit);
            && |last| == (if limit > 0 && |t| > limit then limit else |t|)
            && (forall e :: e in last ==> e in t)
            && (forall i, j :: 0 <= i < j < |last| ==> Earlier(last[i], last[j]))
            && (forall e, f :: e in t && e !in last && f in last ==> Earlier(e, f))
  {
    var last := Last(t, limit);
    var cut := |t| - |last|;
    forall j | cut <= j < |t| ensures t[j] in last {
      assert t[j] == last[j - cut];
    }
  }

  predicate InThread(s: State, thread: Key, k: Key) {
    k in s.messages && ThreadOf(s.messages[k]) == thread
  }

  /** Recent messages are the last `limit` of the thread's messages in time order: all of the thread's
      messages when the limit is not positive or not reached, each once, sorted, and no message left
      out is later than one returned. */
  lemma RecentIsLatest(s: State, thread: Key, limit: int)
    requires Indexed(s)
    ensures var recent := Recent(s, thread, limit);
            var all := OrderOf(s, thread);
            && |recent| == (if limit > 0 && |all| > limit then limit else |all|)
            && (forall e :: e in recent ==>
                  e.key in s.messages && ThreadOf(s.messages[e.key]) == thread && e.time == s.messages[e.key].time)
            && (forall i, j :: 0 <= i < j < |recent| ==> Earlier(recent[i], recent[j]))
            && (forall k :: InThread(s, thread, k) && Entry(s.messages[k].time, k) !in recent ==>
                  forall e :: e in recent ==> Earlier(Entry(s.messages[k].time, k), e))
  {
    TimelineStrict(s, thread);
    TimelineHolds(s, thread);
    LastOfIncreasing(Timeline(s, thread), limit);
  }

  /** The one message was made before the other, or has the smaller id. */
  predicate Sooner(a: Message, b: Message) {
    a.time < b.time || (a.time == b.time && Less(a.messageID, b.messageID))
  }

  lemma {:induction false} LessAfterPrefix(prefix: string, a: string, b: string)
    ensures Less(prefix + a, prefix + b) <==> Less(a, b)
  {
    if prefix == "" {
      assert prefix + a == a && prefix + b == b;
    } else {
      assert (prefix + a)[1..] == prefix[1..] + a && (prefix + b)[1..] == prefix[1..] + b;
      LessAfterPrefix(prefix[1..], a, b);
    }
  }

  lemma EarlierIsSooner(a: Message, b: Message)
    requires a.tenant == b.tenant && a.conversationID == b.conversationID
    ensures Earlier(Entry(a.time, MessageKey(a)), Entry(b.time, MessageKey(b))) <==> Sooner(a, b)
  {
    var prefix := a.tenant + "\0" + a.conversationID + "\0";
    assert MessageKey(a) == prefix + a.messageID && MessageKey(b) == prefix + b.messageID;
    LessAfterPrefix(prefix, a.messageID, b.messageID);
  }

  /** The message belongs to the thread; a blank thread is the conversation itself. */
  predicate BelongsTo(m: Message, tenant: string, conversationID: string, threadID: string) {
    m.tenant == tenant && m.conversationID == conversationID
      && m.threadID == if threadID == "" then conversationID else threadID
  }

  predicate LeftOut(s: State, k: Key, tenant: string, conversationID: string, threadID: string, out: seq<Message>) {
    k in s.messages && BelongsTo(s.messages[k], tenant, conversationID, threadID) && s.messages[k] !in out
  }

  /** The messages that RecentMessages returns. */
  ghost function RecentOf(s: State, tenant: string, conversationID: string, threadID: string, limit: int): seq<Message>
    requires Indexed(s)
  {
    var recent := Recent(s, ThreadKey(tenant, conversationID, FirstNonEmpty(threadID, conversationID)), limit);
    TimelineHolds(s, ThreadKey(tenant, conversationID, FirstNonEmpty(threadID, conversationID)));
    seq(|recent|, i requires 0 <= i < |recent| => s.messages[recent[i].key])
  }

  /** On the messages' own fields: messages of that very thread, oldest first and those of one time by id, at
      most as many as a positive limit says; any other of the thread is sooner than all of them, and left out
      only for the limit. */
  lemma RecentByTime(s: State, tenant: string, conversationID: string, threadID: string, limit: int)
    requires Indexed(s) && NulFree(tenant) && NulFree(conversationID)
    requires forall j :: j in s.messages ==> NulFree(s.messages[j].tenant) && NulFree(s.messages[j].conversationID)
    ensures var out := RecentOf(s, tenant, conversationID, threadID, limit);
            && (forall i :: 0 <= i < |out| ==>
                  BelongsTo(out[i], tenant, conversationID, threadID) && MessageKey(out[i]) in s.messages)
            && (forall i, j :: 0 <= i < j < |out| ==> Sooner(out[i], out[j]))
            && (limit > 0 ==> |out| <= limit)
            && (forall k :: LeftOut(s, k, tenant, conversationID, threadID, out) ==>
                  0 < limit == |out| && forall i :: 0 <= i < |out| ==> Sooner(s.messages[k], out[i]))
  {
    var key := ThreadKey(tenant, conversationID, FirstNonEmpty(threadID, conversationID));
    var out := RecentOf(s, tenant, conversationID, threadID, limit);
    RecentIsLatest(s, key, limit);
    forall i | 0 <= i < |out|
      ensures BelongsTo(out[i], tenant, conversationID, threadID) && MessageKey(out[i]) in s.messages
      ensures RecentAt(s, key, limit, out, i)
    {
      ReturnedBelongs(s, tenant, conversationID, threadID, limit, i);
    }
    forall i, j | 0 <= i < j < |out| ensures Sooner(out[i], out[j]) {
      assert RecentAt(s, key, limit, out, i) && RecentAt(s, key, limit, out, j);
      EarlierIsSooner(out[i], out[j]);
    }
    forall k | LeftOut(s, k, tenant, conversationID, threadID, out)
      ensures 0 < limit == |out| && forall i :: 0 <= i < |out| ==> Sooner(s.messages[k], out[i])
    {
      ListsAreThreads(s, tenant, conversationID, FirstNonEmpty(threadID, conversationID), k);
      LeftOutIsSooner(s, key, limit, out, k);
    }
  }

  /** Message `i` returned is that of entry `i`. */
  ghost predicate RecentAt(s: State, thread: Key, limit: int, out: seq<Message>, i: int)
    requires Indexed(s)
  {
    TimelineHolds(s, thread);
    var recent := Recent(s, thread, limit);
    |out| == |recent| && 0 <= i < |out| && recent[i].key in s.messages && out[i] == s.messages[recent[i].key]
      && recent[i] == Entry(out[i].time, MessageKey(out[i]))
  }

  lemma ReturnedBelongs(s: State, tenant: string, conversationID: string, threadID: string, limit: int, i: int)
    requires Indexed(s) && NulFree(tenant) && NulFree(conversationID)
    requires forall j :: j in s.messages ==> NulFree(s.messages[j].tenant) && NulFree(s.messages[j].conversationID)
    requires 0 <= i < |RecentOf(s, tenant, conversationID, threadID, limit)|
    ensures var out := RecentOf(s, tenant, conversationID, threadID, limit);
            && BelongsTo(out[i], tenant, conversationID, threadID) && MessageKey(out[i]) in s.messages
            && RecentAt(s, ThreadKey(tenant, conversationID, FirstNonEmpty(threadID, conversationID)), limit, out, i)
  {
    var thread := FirstNonEmpty(threadID, conversationID);
    var key := ThreadKey(tenant, conversationID, thread);
    RecentIsLatest(s, key, limit);
    var e := Recent(s, key, limit)[i];
    assert e in Recent(s, key, limit);
    ListsAreThreads(s, tenant, conversationID, thread, e.key);
  }

  /** A message of the thread that is left out, the limit left out, and all returned are later. */
  lemma LeftOutIsSooner(s: State, thread: Key, limit: int, out: seq<Message>, k: Key)
    requires Indexed(s) && InThread(s, thread, k) && s.messages[k] !in out
    requires |out| == |Recent(s, thread, limit)| && forall i :: 0 <= i < |out| ==> RecentAt(s, thread, limit, out, i)
    requires forall i :: 0 <= i < |out| ==>
               out[i].tenant == s.messages[k].tenant && out[i].conversationID == s.messages[k].conversationID
    ensures 0 < limit == |out| && forall i :: 0 <= i < |out| ==> Sooner(s.messages[k], out[i])
  {
    var m, recent := s.messages[k], Recent(s, thread, limit);
    RecentIsLatest(s, thread, limit);
    TimelineHolds(s, thread);
    var e := Entry(m.time, k);
    forall i | 0 <= i < |recent| ensures recent[i] != e {
      assert RecentAt(s, thread, limit, out, i) && out[i] in out;
    }
    assert e in Timeline(s, thread) && e !in recent;
    forall i | 0 <= i < |out| ensures Sooner(m, out[i]) {
      assert RecentAt(s, thread, limit, out, i) && recent[i] in recent;
      EarlierIsSooner(m, out[i]);
    }
  }

  lemma TimelineStrict(s: State, thread: Key)
    requires Indexed(s)
    ensures forall i, j :: 0 <= i < j < |Timeline(s, thread)| ==>
              Earlier(Timeline(s, thread)[i], Timeline(s, thread)[j])
  {
    EarlierIsWeakOrder();
    EntriesTieless(s, OrderOf(s, thread));
    assert NoRepeats(Entries(s, OrderOf(s, thread)));
    SortStrict(Entries(s, OrderOf(s, thread)), Earlier);
  }

  lemma LastIsSuffix<T>(t: seq<T>, limit: int, larger: int)
    requires 0 < limit && (limit <= larger || larger <= 0)
    ensures var few, many := Last(t, limit), Last(t, larger);
            |few| <= |many| && few == many[|many| - |few|..]
  {
  }

  /** A smaller limit gives a suffix of the answer for a larger one. */
  lemma RecentIsSuffix(s: State, thread: Key, limit: int, larger: int)
    requires Indexed(s) && 0 < limit && (limit <= larger || larger <= 0)
    ensures var few, many := Recent(s, thread, limit), Recent(s, thread, larger);
            |few| <= |many| && few == many[|many| - |few|..]
  {
    LastIsSuffix(Timeline(s, thread), limit, larger);
  }

  /** The answer depends on the stored messages only, not on the order in which they arrived. */
  lemma TimelineForgetsOrder(s: State, s': State, thread: Key)
    requires Indexed(s) && Indexed(s') && s.messages == s'.messages
    ensures Timeline(s, thread) == Timeline(s', thread)
  {
    var a, b := OrderOf(s, thread), OrderOf(s', thread);
    forall k ensures k in a <==> k in b {
      assert k in a <==> k in s.messages && ThreadOf(s.messages[k]) == thread;
    }
    SameKeysSameEntries(s, s', a, b);
    EntriesTieless(s, a);
    EarlierIsWeakOrder();
    SortForgetsOrder(Entries(s, a), Entries(s', b), Earlier);
  }

  lemma SameKeysSameEntries(s: State, s': State, a: seq<Key>, b: seq<Key>)
    requires s.messages == s'.messages && NoRepeats(a) && NoRepeats(b)
    requires forall k :: k in a <==> k in b
    requires forall k :: k in a ==> k in s.messages
    ensures multiset(Entries(s, a)) == multiset(Entries(s', b))
  {
    EntriesHold(s, a);
    EntriesHold(s', b);
    SameSetSameMultiset(Entries(s, a), Entries(s', b));
  }

  lemma EntriesHold(s: State, keys: seq<Key>)
    requires forall k :: k in keys ==> k in s.messages
    requires NoRepeats(keys)
    ensures NoRepeats(Entries(s, keys))
    ensures forall e :: e in Entries(s, keys) <==> e.key in keys && e == Entry(s.messages[e.key].time, e.key)
  {
    forall e: Entry | e.key in keys && e == Entry(s.messages[e.key].time, e.key) ensures e in Entries(s, keys) {
      var i :| 0 <= i < |keys| && keys[i] == e.key;
      assert Entries(s, keys)[i] == e;
    }
  }

  /** Two histories that stored the same messages answer alike for every thread and limit. */
  lemma RecentForgetsHistory(appends: seq<Message>, appends': seq<Message>, thread: Key, limit: int)
    requires Run(EMPTY, appends).messages == Run(EMPTY, appends').messages
    ensures Indexed(Run(EMPTY, appends)) && Indexed(Run(EMPTY, appends'))
    ensures Recent(Run(EMPTY, appends), thread, limit) == Recent(Run(EMPTY, appends'), thread, limit)
  {
    RunKeepsIndexed(EMPTY, appends);
    RunKeepsIndexed(EMPTY, appends');
    TimelineForgetsOrder(Run(EMPTY, appends), Run(EMPTY, appends'), thread);
  }

  // ----- sorting keys -------------------------------------------------------

  /** The order of keys by the times of their messages, then by themselves. */
  function KeyOrder(messages: map<Key, Message>): (Key, Key) -> bool {
    (a, b) => a in messages && b in messages && Earlier(Entry(messages[a].time, a), Entry(messages[b].time, b))
  }

  lemma EntriesOfMore(s: State, key: Key, keys: seq<Key>)
    requires key in s.messages && forall k :: k in keys ==> k in s.messages
    ensures Entries(s, [key] + keys) == [Entry(s.messages[key].time, key)] + Entries(s, keys)
  {
  }

  lemma InsertedKeys(key: Key, keys: seq<Key>, order: (Key, Key) -> bool)
    ensures forall k :: k in Insert(key, keys, order) <==> k == key || k in keys
  {
    var sorted := Insert(key, keys, order);
    forall k ensures k in sorted <==> k == key || k in keys {
      assert k in sorted <==> k in multiset(sorted);
      assert k in keys <==> k in multiset(keys);
    }
  }

  lemma {:induction false} InsertedEntry(s: State, key: Key, keys: seq<Key>)
    requires key in s.messages && forall k :: k in keys ==> k in s.messages
    ensures forall k :: k in Insert(key, keys, KeyOrder(s.messages)) ==> k in s.messages
    ensures Entries(s, Insert(key, keys, KeyOrder(s.messages)))
            == Insert(Entry(s.messages[key].time, key), Entries(s, keys), Earlier)
  {
    InsertedKeys(key, keys, KeyOrder(s.messages));
    if keys == [] || !KeyOrder(s.messages)(keys[0], key) {
      EntriesOfMore(s, key, keys);
    } else {
      var rest := keys[1..];
      assert keys == [keys[0]] + rest;
      InsertedEntry(s, key, rest);
      EntriesOfMore(s, keys[0], rest);
      assert Entries(s, keys)[1..] == Entries(s, rest);
      EntriesOfMore(s, keys[0], Insert(key, rest, KeyOrder(s.messages)));
    }
  }

  /** Sorting the keys sorts their entries. */
  lemma {:induction false} SortedEntries(s: State, keys: seq<Key>)
    requires forall k :: k in keys ==> k in s.messages
    ensures forall k :: k in Sort(keys, KeyOrder(s.messages)) ==> k in s.messages
    ensures Entries(s, Sort(keys, KeyOrder(s.messages))) == Sort(Entries(s, keys), Earlier)
  {
    if keys != [] {
      var rest := keys[1..];
      assert keys == [keys[0]] + rest;
      SortedEntries(s, rest);
      EntriesOfMore(s, keys[0], rest);
      assert Entries(s, keys)[1..] == Entries(s, rest);
      InsertedEntry(s, keys[0], Sort(rest, KeyOrder(s.messages)));
    }
  }

  lemma LastEntries(s: State, keys: seq<Key>, limit: int)
    requires forall k :: k in keys ==> k in s.messages
    ensures forall k :: k in Last(keys, limit) ==> k in s.messages
    ensures Entries(s, Last(keys, limit)) == Last(Entries(s, keys), limit)
  {
    if limit > 0 && |keys| > limit {
      assert Entries(s, keys[|keys| - limit..]) == Entries(s, keys)[|keys| - limit..];
    }
  }

  /** The thread's keys sorted and cut, as RecentMessages does. */
  function LastKeys(s: State, thread: Key, limit: int): seq<Key> {
    Last(Sort(OrderOf(s, thread), KeyOrder(s.messages)), limit)
  }

  /** They are the keys of the recent entries. */
  lemma LastKeysAreRecent(s: State, thread: Key, limit: int)
    requires Indexed(s)
    ensures |LastKeys(s, thread, limit)| == |Recent(s, thread, limit)|
    ensures forall i :: 0 <= i < |LastKeys(s, thread, limit)| ==>
              LastKeys(s, thread, limit)[i] in s.messages
                && Recent(s, thread, limit)[i].key == LastKeys(s, thread, limit)[i]
  {
    IndexedKeysAreStored(s, thread);
    SortedEntries(s, OrderOf(s, thread));
    LastEntries(s, Sort(OrderOf(s, thread), KeyOrder(s.messages)), limit);
    var keys := LastKeys(s, thread, limit);
    assert Entries(s, keys) == Recent(s, thread, limit);
  }

  lemma IndexedKeysAreStored(s: State, thread: Key)
    requires Indexed(s)
    ensures forall k :: k in OrderOf(s, thread) ==> k in s.messages
  {
  }

  lemma FetchedAreRecent(s: State, tenant: string, conversationID: string, threadID: string, limit: int,
                         out: seq<Message>)
    requires Indexed(s)
    requires var keys := LastKeys(s, ThreadKey(tenant, conversationID, FirstNonEmpty(threadID, conversationID)), limit);
             |out| == |keys| && forall i :: 0 <= i < |out| ==> keys[i] in s.messages && out[i] == s.messages[keys[i]]
    ensures out == RecentOf(s, tenant, conversationID, threadID, limit)
  {
    LastKeysAreRecent(s, ThreadKey(tenant, conversationID, FirstNonEmpty(threadID, conversationID)), limit);
  }

  // ----- the store ----------------------------------------------------------

  class InMemoryStore {
    var messages: map<Key, Message>
    var order: map<Key, seq<Key>>

    constructor ()
      ensures View() == EMPTY
    {
      messages, order := map[], map[];
    }

    function View(): State
      reads this
    {
      State(messages, order)
    }

    method AppendMessage(m: Message) returns (r: Result)
      modifies this
      ensures (View(), r) == Append(old(View()), m)
    {
      if m.tenant == "" || TrimSpace(m.conversationID) == "" || TrimSpace(m.messageID) == "" {
        return Invalid;
      }
      var message := m;
      if TrimSpace(message.threadID) == "" {
        message := message.(threadID := message.conversationID);
      }
      if TrimSpace(message.messageThreadID) == "" {
        message := message.(messageThreadID := message.threadID);
      }
      var key := MessageKey(message);
      if key in messages {
        if SameMessage(messages[key], message) {
          return AlreadyStored;
        }
        return Conflict;
      }
      messages := messages[key := message];
      var thread := ThreadOf(message);
      order := order[thread := (if thread in order then order[thread] else []) + [key]];
      return Stored;
    }

    method RecentMessages(tenant: string, conversationID: string, threadID: string,
                          limit: int) returns (out: seq<Message>)
      requires Indexed(View())
      ensures out == RecentOf(View(), tenant, conversationID, threadID, limit)
    {
      var thread := ThreadKey(tenant, conversationID, FirstNonEmpty(threadID, conversationID));
      var keys := if thread in order then order[thread] else [];
      keys := Sort(keys, KeyOrder(messages));
      if limit > 0 && |keys| > limit {
        keys := keys[|keys| - limit..];
      }
      assert keys == LastKeys(View(), thread, limit);
      LastKeysAreRecent(View(), thread, limit);
      out := Fetch(keys);
      FetchedAreRecent(View(), tenant, conversationID, threadID, limit, out);
    }

    method Fetch(keys: seq<Key>) returns (out: seq<Message>)
      requires forall k :: k in keys ==> k in messages
      ensures |out| == |keys| && forall i :: 0 <= i < |out| ==> out[i] == messages[keys[i]]
    {
      out := [];
      for i := 0 to |keys|
        invariant |out| == i && forall j :: 0 <= j < i ==> out[j] == messages[keys[j]]
      {
        out := out + [messages[keys[i]]];
      }
    }

    method GetMessage(tenant: string, conversationID: string, messageID: string) returns (found: Option<Message>)
      ensures var key := Join3(tenant, conversationID, messageID);
              found == if key in messages then Some(messages[key]) else None
    {
      var key := Join3(tenant, conversationID, messageID);
      if key !in messages {
        return None;
      }
      return Some(messages[key]);
    }
  }
}
