/** The colon-keyed conversation store (backend/app/channels/store.py).

    Conversations are addressed by (channel, chat, optional topic) but kept in one
    string-keyed dictionary. This module proves when that dictionary is a faithful
    map on conversations, and that every store operation refines the operation on
    that map. */
module ConversationStore {
  import opened Options

  datatype Conversation = Conversation(channel: string, chat: string, topic: Option<string>)

  datatype Entry = Entry(threadId: string, userId: string, createdAt: real, updatedAt: real)

  type Data = map<string, Entry>

  predicate ColonFree(s: string) {
    ':' !in s
  }

  /** The names for which a string key determines the conversation. */
  predicate WellNamed(c: Conversation) {
    ColonFree(c.channel) && ColonFree(c.chat) && c.topic != Some("")
  }

  function Key(c: Conversation): string {
    if c.topic.Some? && c.topic.value != ""
    then c.channel + ":" + c.chat + ":" + c.topic.value
    else c.channel + ":" + c.chat
  }

  /** Splits at the first colon, as Python's `split(":", 1)`. */
  function Cut(s: string): (r: (string, Option<string>))
    ensures ColonFree(r.0)
    ensures r.1.Some? ==> s == r.0 + ":" + r.1.value
    ensures r.1.None? ==> s == r.0
  {
    if s == "" then ("", None)
    else if s[0] == ':' then ("", Some(s[1..]))
    else var (head, rest) := Cut(s[1..]); ([s[0]] + head, rest)
  }

  /** How listing reads a key back: `split(":", 2)` with absent parts defaulted. */
  function ParseKey(key: string): Conversation {
    var (channel, rest) := Cut(key);
    if rest.None? then Conversation(channel, "", None)
    else
      var (chat, topic) := Cut(rest.value);
      Conversation(channel, chat, topic)
  }

  lemma {:induction false} CutAtFirstColon(head: string, tail: string)
    requires ColonFree(head)
    ensures Cut(head + ":" + tail) == (head, Some(tail))
  {
    var s := head + ":" + tail;
    if head == "" {
      assert s[1..] == tail;
    } else {
      assert head == [head[0]] + head[1..];
      assert s[1..] == head[1..] + ":" + tail;
      CutAtFirstColon(head[1..], tail);
    }
  }

  /** Listing inverts the key of a conversation exactly for the well-named ones. */
  lemma ListingInvertsKeyIff(c: Conversation)
    ensures ParseKey(Key(c)) == c <==> WellNamed(c)
  {
    if WellNamed(c) {
      if c.topic.Some? {
        assert Key(c) == c.channel + ":" + (c.chat + ":" + c.topic.value);
        CutAtFirstColon(c.channel, c.chat + ":" + c.topic.value);
        CutAtFirstColon(c.chat, c.topic.value);
      } else {
        CutAtFirstColon(c.channel, c.chat);
      }
    } else if ColonFree(c.channel) && ColonFree(c.chat) {
      CutAtFirstColon(c.channel, c.chat);
    }
  }

  lemma KeyInjective(a: Conversation, b: Conversation)
    requires WellNamed(a) && WellNamed(b)
    requires Key(a) == Key(b)
    ensures a == b
  {
    ListingInvertsKeyIff(a);
    ListingInvertsKeyIff(b);
  }

  /** Why colons have to be kept out: a chat called "b:c" collides with topic "c" of chat "b". */
  lemma ColonCollision()
    ensures exists a: Conversation, b: Conversation ::
              a != b && a.topic != Some("") && b.topic != Some("") && Key(a) == Key(b)
  {
    var a := Conversation("a", "b:c", None);
    var b := Conversation("a", "b", Some("c"));
    assert Key(a) == "a:b:c" == Key(b);
  }

  // ------------------------------------------------------------------ operations on the dictionary

  function AfterSet(data: Data, key: string, threadId: string, userId: string, now: real): Data {
    data[key := Entry(threadId, userId, if key in data then data[key].createdAt else now, now)]
  }

  /** The keys that removal without a topic deletes. */
  predicate Doomed(key: string, prefix: string) {
    key == prefix || prefix + ":" <= key
  }

  function AfterRemove(data: Data, c: Conversation): Data {
    if c.topic.Some? then data - {Key(c)}
    else map k | k in data && !Doomed(k, Key(c)) :: data[k]
  }

  /** What listing reports, with or without a channel filter. */
  function Listing(data: Data, channel: Option<string>): set<(Conversation, Entry)> {
    set k | k in data && (channel.None? || channel.value == "" || ParseKey(k).channel == channel.value)
      :: (ParseKey(k), data[k])
  }

  // ------------------------------------------------------------------ refinement of a conversation map

  /** `data` stores exactly the conversation map `m`. */
  ghost predicate Refines(data: Data, m: map<Conversation, Entry>) {
    && (forall c <- m :: WellNamed(c) && Key(c) in data && data[Key(c)] == m[c])
    && (forall k <- data :: exists c :: c in m && Key(c) == k)
  }

  lemma RefinedMembership(data: Data, m: map<Conversation, Entry>, c: Conversation)
    requires Refines(data, m) && WellNamed(c)
    ensures Key(c) in data <==> c in m
    ensures c in m ==> data[Key(c)] == m[c]
  {
    if Key(c) in data {
      var d :| d in m && Key(d) == Key(c);
      KeyInjective(c, d);
    }
  }

  /** Setting a mapping updates that conversation alone and keeps its creation time. */
  lemma SetRefines(data: Data, m: map<Conversation, Entry>, c: Conversation, threadId: string, userId: string,
        now: real)
    requires Refines(data, m) && WellNamed(c)
    ensures Refines(AfterSet(data, Key(c), threadId, userId, now),
                    m[c := Entry(threadId, userId, if c in m then m[c].createdAt else now, now)])
  {
    ListingInvertsKeyIff(c);
    RefinedMembership(data, m, c);
    var entry := Entry(threadId, userId, if c in m then m[c].createdAt else now, now);
    var key := Key(c);
    assert AfterSet(data, key, threadId, userId, now) == data[key := entry];
    UpdateRefines(data, m, c, key, entry);
  }

  lemma UpdateRefines(data: Data, m: map<Conversation, Entry>, c: Conversation, key: string, entry: Entry)
    requires Refines(data, m) && WellNamed(c) && key == Key(c)
    ensures Refines(data[key := entry], m[c := entry])
  {
    forall d | d in m && d != c ensures Key(d) in data && Key(d) != key && data[Key(d)] == m[d] {
      if Key(d) == key { KeyInjective(c, d); }
    }
    var updated := data[key := entry];
    forall k | k in updated ensures exists d :: d in m[c := entry] && Key(d) == k {
      if k == key {
        assert c in m[c := entry];
      } else {
        var d :| d in m && Key(d) == k;
        assert d in m[c := entry];
      }
    }
  }

  /** The prefix test of removal picks exactly the keys that read back as one chat's, whatever is stored. */
  lemma DoomedIsSameChat(key: string, channel: string, chat: string)
    requires ColonFree(channel) && ColonFree(chat)
    ensures Doomed(key, Key(Conversation(channel, chat, None)))
      <==> ParseKey(key).channel == channel && ParseKey(key).chat == chat && ':' in key
  {
    var base := Conversation(channel, chat, None);
    ListingInvertsKeyIff(base);
    if Key(base) + ":" <= key { ExtendedKeyParses(channel, chat, key); }
  }

  /** A key without a colon, which the store never makes, is listed as a channel without a chat. */
  lemma BareKeyParses(key: string)
    ensures ':' !in key ==> ParseKey(key) == Conversation(key, "", None)
  {
  }

  lemma ExtendedKeyParses(channel: string, chat: string, key: string)
    requires ColonFree(channel) && ColonFree(chat) && channel + ":" + chat + ":" <= key
    ensures ParseKey(key).channel == channel && ParseKey(key).chat == chat
  {
    var rest := key[|channel| + |chat| + 2..];
    assert key == channel + ":" + (chat + ":" + rest);
    CutAtFirstColon(channel, chat + ":" + rest);
    CutAtFirstColon(chat, rest);
  }

  /** Removing `c` means that conversation, or without a topic the whole chat. */
  predicate Covers(c: Conversation, d: Conversation) {
    if c.topic.Some? then d == c else d.channel == c.channel && d.chat == c.chat
  }

  lemma RemovedKey(data: Data, c: Conversation, d: Conversation)
    requires WellNamed(d) && WellNamed(c) && Key(d) in data
    ensures Key(d) in AfterRemove(data, c) <==> !Covers(c, d)
  {
    if c.topic.None? {
      DoomedIsSameChat(Key(d), c.channel, c.chat);
      ListingInvertsKeyIff(d);
    } else if Key(d) == Key(c) {
      KeyInjective(c, d);
    }
  }

  /** Removal without a topic deletes the chat's conversations, removal with one only that one. */
  lemma RemoveRefines(data: Data, m: map<Conversation, Entry>, c: Conversation)
    requires Refines(data, m) && WellNamed(c)
    ensures Refines(AfterRemove(data, c), map d | d in m && !Covers(c, d) :: m[d])
  {
    forall d | d in m ensures Key(d) in AfterRemove(data, c) <==> !Covers(c, d) {
      RemovedKey(data, c, d);
    }
  }

  /** Listing reports every stored conversation under its own name, and nothing else. */
  lemma ListingExact(data: Data, m: map<Conversation, Entry>, channel: string)
    requires Refines(data, m)
    ensures Listing(data, None) == set c | c in m :: (c, m[c])
    ensures channel != "" ==> Listing(data, Some(channel)) == set c | c in m && c.channel == channel :: (c, m[c])
    ensures Listing(data, Some("")) == Listing(data, None)
  {
    forall c | c in m ensures ParseKey(Key(c)) == c {
      ListingInvertsKeyIff(c);
    }
    assert forall k :: k in data ==> data[k] == m[ParseKey(k)];
    forall c | c in m
      ensures (c, m[c]) in Listing(data, None)
      ensures c.channel == channel ==> (c, m[c]) in Listing(data, Some(channel))
    {
      assert Key(c) in data && ParseKey(Key(c)) == c;
    }
  }

  // ------------------------------------------------------------------ the store object

  class ChannelStore {
    var data: Data

    constructor ()
      ensures data == map[]
    {
      data := map[];
    }

    method GetThreadId(c: Conversation) returns (threadId: Option<string>)
      ensures threadId == if Key(c) in data then Some(data[Key(c)].threadId) else None
    {
      var key := Key(c);
      threadId := if key in data then Some(data[key].threadId) else None;
    }

    method SetThreadId(c: Conversation, threadId: string, userId: string, now: real)
      modifies this
      ensures data == AfterSet(old(data), Key(c), threadId, userId, now)
    {
      var key := Key(c);
      var createdAt := now;
      if key in data { createdAt := data[key].createdAt; }
      data := data[key := Entry(threadId, userId, createdAt, now)];
    }

    method Remove(c: Conversation) returns (removed: bool)
      modifies this
      ensures data == AfterRemove(old(data), c)
      ensures removed <==> data != old(data)
    {
      ghost var before := data;
      if c.topic.Some? {
        removed := Key(c) in data;
        data := data - {Key(c)};
        assert removed ==> Key(c) !in data && Key(c) in before;
        assert !removed ==> data == before;
        return;
      }
      var prefix := Key(c);
      var doomed := set k | k in data && Doomed(k, prefix);
      removed := doomed != {};
      ghost var all := doomed;
      while doomed != {}
        invariant doomed <= all
        invariant data == map k | k in before && k !in all - doomed :: before[k]
      {
        var k :| k in doomed;
        data := data - {k};
        doomed := doomed - {k};
      }
      assert forall k :: k in before ==> (k in all <==> Doomed(k, Key(c)));
      assert data == AfterRemove(before, c);
      if removed {
        ghost var k :| k in all;
        assert k in before && k !in data;
      }
    }
  }
}
