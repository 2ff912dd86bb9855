/** The inbound dedupe table (ChannelManager._is_duplicate_inbound and
    _release_inbound_dedupe_key in backend/app/channels/manager.py).

    The table is an insertion-ordered dictionary from message keys to receipt times,
    here a sequence of entries. The class does what the code does, popping from the
    front; the functions below say what that means, and the lemmas relate every
    answer to the whole history of receipts and releases. */
module DedupeTable {
  import opened Options
  import opened RecencyLists

  const TTL: real := 600.0
  const MAX_ENTRIES: nat := 4096

  datatype Key = Key(channel: string, workspace: string, chat: string, message: string)

  datatype Entry = Entry(key: Key, at: real)

  predicate Expired(e: Entry, now: real) {
    now - e.at > TTL
  }

  predicate Has(events: seq<Entry>, key: Key) {
    exists i :: 0 <= i < |events| && events[i].key == key
  }

  /** Removes exactly the expired entries, wherever they are. */
  function Unexpired(events: seq<Entry>, now: real): seq<Entry> {
    if events == [] then []
    else (if Expired(events[0], now) then [] else [events[0]]) + Unexpired(events[1..], now)
  }

  function Trim(events: seq<Entry>, now: real): seq<Entry> {
    Latest(Unexpired(events, now), MAX_ENTRIES)
  }

  function AfterReceive(events: seq<Entry>, key: Key, now: real): seq<Entry> {
    var kept := Trim(events, now);
    if Has(kept, key) then kept else kept + [Entry(key, now)]
  }

  function Without(events: seq<Entry>, key: Key): seq<Entry> {
    if events == [] then []
    else (if events[0].key == key then [] else [events[0]]) + Without(events[1..], key)
  }

  ghost predicate Ordered(events: seq<Entry>) {
    forall i, j :: 0 <= i < j < |events| ==> events[i].at <= events[j].at && events[i].key != events[j].key
  }

  lemma {:induction false} WithoutMember(events: seq<Entry>, key: Key, e: Entry)
    ensures e in Without(events, key) <==> e in events && e.key != key
  {
    if events != [] {
      assert events == [events[0]] + events[1..];
      WithoutMember(events[1..], key, e);
    }
  }

  lemma {:induction false} WithoutOrdered(events: seq<Entry>, key: Key)
    requires Ordered(events)
    ensures Ordered(Without(events, key))
  {
    if events != [] {
      var rest := Without(events[1..], key);
      WithoutOrdered(events[1..], key);
      forall j | 0 <= j < |rest| ensures events[0].at <= rest[j].at && events[0].key != rest[j].key {
        WithoutMember(events[1..], key, rest[j]);
        var k :| 0 <= k < |events[1..]| && events[1..][k] == rest[j];
        assert events[k + 1] == rest[j];
      }
    }
  }

  /** Front-only expiry suffices: in chronological order the expired entries are a prefix. */
  lemma {:induction false} UnexpiredIsSuffix(events: seq<Entry>, now: real, cut: nat)
    requires Ordered(events) && cut <= |events|
    requires forall i :: 0 <= i < cut ==> Expired(events[i], now)
    requires cut < |events| ==> !Expired(events[cut], now)
    ensures Unexpired(events, now) == events[cut..]
  {
    if events != [] {
      if cut == 0 {
        if |events| > 1 {
          assert !Expired(events[1], now);
          UnexpiredIsSuffix(events[1..], now, 0);
        }
        assert events == [events[0]] + events[1..];
      } else {
        UnexpiredIsSuffix(events[1..], now, cut - 1);
        assert events[1..][cut - 1..] == events[cut..];
      }
    }
  }

  function FirstLive(events: seq<Entry>, now: real): (cut: nat)
    ensures cut <= |events|
    ensures forall i :: 0 <= i < cut ==> Expired(events[i], now)
    ensures cut < |events| ==> !Expired(events[cut], now)
  {
    if events == [] || !Expired(events[0], now) then 0 else 1 + FirstLive(events[1..], now)
  }

  /** Trimming keeps a suffix: precisely the unexpired entries among the newest 4096. */
  lemma TrimKeeps(events: seq<Entry>, now: real)
    requires Ordered(events)
    ensures |Trim(events, now)| <= |events| && Trim(events, now) == events[|events| - |Trim(events, now)|..]
    ensures forall i :: 0 <= i < |events| ==>
              (|events| - |Trim(events, now)| <= i <==> !Expired(events[i], now) && |events| - i <= 4096)
  {
    var cut := FirstLive(events, now);
    UnexpiredIsSuffix(events, now, cut);
  }

  // ------------------------------------------------------------------ histories

  datatype Op = Receive(key: Key, now: real) | Release(key: Key)

  function Apply(events: seq<Entry>, op: Op): seq<Entry> {
    match op
    case Receive(key, now) => AfterReceive(events, key, now)
    case Release(key) => Without(events, key)
  }

  /** The table after a whole history. */
  function Replay(ops: seq<Op>): seq<Entry> {
    if ops == [] then [] else Apply(Replay(ops[..|ops| - 1]), ops[|ops| - 1])
  }

  predicate Answer(ops: seq<Op>, key: Key, now: real) {
    Has(Trim(Replay(ops), now), key)
  }

  /** The clock never runs backwards, up to and including `now`. */
  ghost predicate Clocked(ops: seq<Op>, now: real) {
    && (forall i :: 0 <= i < |ops| && ops[i].Receive? ==> ops[i].now <= now)
    && (forall i, j :: 0 <= i < j < |ops| && ops[i].Receive? && ops[j].Receive? ==> ops[i].now <= ops[j].now)
  }

  /** The message at position p was new and got recorded. */
  predicate Accepted(ops: seq<Op>, p: nat)
    requires p < |ops|
  {
    ops[p].Receive? && !Answer(ops[..p], ops[p].key, ops[p].now)
  }

  predicate ReleasedSince(ops: seq<Op>, key: Key, p: nat) {
    exists r :: p <= r < |ops| && ops[r] == Release(key)
  }

  /** How many messages were accepted from position p on. */
  function AcceptsSince(ops: seq<Op>, p: nat): nat {
    if |ops| <= p then 0
    else AcceptsSince(ops[..|ops| - 1], p) + (if Accepted(ops, |ops| - 1) then 1 else 0)
  }

  lemma AcceptedInPrefix(ops: seq<Op>, n: nat, p: nat)
    requires p < n <= |ops|
    ensures Accepted(ops[..n], p) == Accepted(ops, p)
  {
    assert ops[..n][..p] == ops[..p];
  }

  lemma WithoutNotLater(events: seq<Entry>, key: Key, now: real)
    requires forall i :: 0 <= i < |events| ==> events[i].at <= now
    ensures forall i :: 0 <= i < |Without(events, key)| ==> Without(events, key)[i].at <= now
  {
    forall i | 0 <= i < |Without(events, key)| ensures Without(events, key)[i].at <= now {
      WithoutMember(events, key, Without(events, key)[i]);
    }
  }

  lemma ReceiveNotLater(events: seq<Entry>, key: Key, now: real)
    requires Ordered(events) && forall i :: 0 <= i < |events| ==> events[i].at <= now
    ensures Ordered(AfterReceive(events, key, now))
    ensures forall i :: 0 <= i < |AfterReceive(events, key, now)| ==> AfterReceive(events, key, now)[i].at <= now
  {
    TrimKeeps(events, now);
  }

  lemma {:induction false} ReplayOrdered(ops: seq<Op>, now: real)
    requires Clocked(ops, now)
    ensures Ordered(Replay(ops)) && forall i :: 0 <= i < |Replay(ops)| ==> Replay(ops)[i].at <= now
  {
    if ops != [] {
      var before, op := ops[..|ops| - 1], ops[|ops| - 1];
      var events := Replay(before);
      match op {
        case Receive(key, t) =>
          ReplayOrdered(before, t);
          ReceiveNotLater(events, key, t);
        case Release(key) =>
          ReplayOrdered(before, now);
          WithoutOrdered(events, key);
          WithoutNotLater(events, key, now);
      }
    }
  }

  /** The table never exceeds 4097 entries, whatever the clock does. */
  lemma {:induction false} ReplayBounded(ops: seq<Op>)
    ensures |Replay(ops)| <= 4097
  {
    if ops != [] {
      ReplayBounded(ops[..|ops| - 1]);
      if ops[|ops| - 1].Release? { WithoutShorter(Replay(ops[..|ops| - 1]), ops[|ops| - 1].key); }
    }
  }

  lemma {:induction false} WithoutShorter(events: seq<Entry>, key: Key)
    ensures |Without(events, key)| <= |events|
  {
    if events != [] { WithoutShorter(events[1..], key); }
  }

  // ------------------------------------------------------------------ answers are sound

  ghost predicate OriginAt(ops: seq<Op>, e: Entry, p: nat) {
    p < |ops| && Accepted(ops, p) && ops[p] == Receive(e.key, e.at) && !ReleasedSince(ops, e.key, p)
  }

  lemma OriginStays(ops: seq<Op>, e: Entry, p: nat)
    requires ops != [] && OriginAt(ops[..|ops| - 1], e, p) && ops[|ops| - 1] != Release(e.key)
    ensures OriginAt(ops, e, p)
  {
    AcceptedInPrefix(ops, |ops| - 1, p);
    forall r | p <= r < |ops| ensures ops[r] != Release(e.key) {
      if r < |ops| - 1 { assert ops[..|ops| - 1][r] == ops[r]; }
    }
  }

  /** Every entry was accepted at its recorded time and not released since. */
  lemma {:induction false} EntryHasOrigin(ops: seq<Op>, now: real, e: Entry)
    requires Clocked(ops, now) && e in Replay(ops)
    ensures exists p :: OriginAt(ops, e, p)
  {
    var n := |ops| - 1;
    var before, op := ops[..n], ops[n];
    var events := Replay(before);
    match op {
      case Receive(key, t) =>
        ReplayOrdered(before, t);
        TrimKeeps(events, t);
        if e in events {
          EntryHasOrigin(before, t, e);
          var p :| OriginAt(before, e, p);
          OriginStays(ops, e, p);
        } else {
          assert e == Entry(key, t);
          assert OriginAt(ops, e, n);
        }
      case Release(key) =>
        WithoutMember(events, key, e);
        EntryHasOrigin(before, now, e);
        var p :| OriginAt(before, e, p);
        OriginStays(ops, e, p);
    }
  }

  // ------------------------------------------------------------------ answers are complete

  /** The entry of the message accepted at p sits in the table with at most `behind` entries after it. */
  ghost predicate SitsAt(events: seq<Entry>, e: Entry, behind: nat) {
    exists i :: 0 <= i < |events| && events[i] == e && |events| - 1 - i <= behind
  }

  lemma {:induction false} WithoutSits(events: seq<Entry>, key: Key, e: Entry, behind: nat)
    requires SitsAt(events, e, behind) && e.key != key
    ensures SitsAt(Without(events, key), e, behind)
  {
    var i :| 0 <= i < |events| && events[i] == e && |events| - 1 - i <= behind;
    WithoutShorter(events[1..], key);
    if i == 0 {
      assert Without(events, key)[0] == e;
    } else {
      assert events[1..][i - 1] == e;
      WithoutSits(events[1..], key, e, behind);
      var rest := Without(events[1..], key);
      var j :| 0 <= j < |rest| && rest[j] == e && |rest| - 1 - j <= behind;
      var k := if events[0].key == key then j else j + 1;
      assert Without(events, key)[k] == e;
    }
  }

  lemma TrimSits(events: seq<Entry>, now: real, e: Entry, behind: nat)
    requires Ordered(events) && SitsAt(events, e, behind) && !Expired(e, now) && behind < 4096
    ensures SitsAt(Trim(events, now), e, behind) && Has(Trim(events, now), e.key)
  {
    TrimKeeps(events, now);
    var i :| 0 <= i < |events| && events[i] == e && |events| - 1 - i <= behind;
    var kept := Trim(events, now);
    var j := i - (|events| - |kept|);
    assert kept[j] == e;
  }

  /** While fewer than 4096 messages were accepted after it, an unexpired, unreleased entry stays. */
  lemma {:induction false} EntryStays(ops: seq<Op>, now: real, p: nat)
    requires Clocked(ops, now) && p < |ops| && Accepted(ops, p)
    requires now - ops[p].now <= 600.0 && !ReleasedSince(ops, ops[p].key, p)
    requires AcceptsSince(ops, p + 1) < 4096
    ensures SitsAt(Replay(ops), Entry(ops[p].key, ops[p].now), AcceptsSince(ops, p + 1))
  {
    var n := |ops| - 1;
    var before, op := ops[..n], ops[n];
    var e := Entry(ops[p].key, ops[p].now);
    var events := Replay(before);
    if p == n {
      assert Replay(ops)[|Replay(ops)| - 1] == e;
    } else {
      AcceptedInPrefix(ops, n, p);
      assert !ReleasedSince(before, e.key, p) by {
        if r :| p <= r < n && before[r] == Release(e.key) { assert ops[r] == Release(e.key); }
      }
      var behind := AcceptsSince(before, p + 1);
      if op.Receive? {
        EntryStays(before, op.now, p);
        ReplayOrdered(before, op.now);
        TrimSits(events, op.now, e, behind);
        var kept := Trim(events, op.now);
        var i :| 0 <= i < |kept| && kept[i] == e && |kept| - 1 - i <= behind;
        assert Replay(ops)[i] == e;
      } else {
        EntryStays(before, now, p);
        WithoutSits(events, op.key, e, behind);
      }
    }
  }

  // ------------------------------------------------------------------ where an entry is

  /** The entries accepted after position p and not released since, oldest first. */
  function Newer(ops: seq<Op>, p: nat): seq<Entry>
    decreases |ops|
  {
    if |ops| <= p + 1 then []
    else
      var n := |ops| - 1;
      match ops[n]
      case Receive(key, now) => Newer(ops[..n], p) + (if Accepted(ops, n) then [Entry(key, now)] else [])
      case Release(key) => Without(Newer(ops[..n], p), key)
  }

  /** The last acceptance of its key, which has not been released since. */
  ghost predicate Standing(ops: seq<Op>, p: nat) {
    && p < |ops| && Accepted(ops, p)
    && forall q :: p < q < |ops| ==>
         ops[q] != Release(ops[p].key) && (Accepted(ops, q) ==> ops[q].key != ops[p].key)
  }

  /** At every receipt since, the entry was unexpired and had fewer than 4096 newer ones behind it. */
  ghost predicate Spared(ops: seq<Op>, p: nat)
    requires p < |ops| && ops[p].Receive?
  {
    forall r :: p < r < |ops| && ops[r].Receive? ==>
      |Newer(ops[..r], p)| < 4096 && ops[r].now - ops[p].now <= 600.0
  }

  ghost predicate EndsIn(events: seq<Entry>, tail: seq<Entry>) {
    |tail| <= |events| && events[|events| - |tail|..] == tail
  }

  /** The table ends with the entry and the newer ones if it was spared, and has lost the key if not. */
  ghost predicate InPlace(events: seq<Entry>, e: Entry, newer: seq<Entry>, spared: bool) {
    if spared then EndsIn(events, [e] + newer) else !Has(events, e.key)
  }

  lemma TrimInPlace(events: seq<Entry>, now: real, e: Entry, newer: seq<Entry>, spared: bool)
    requires Ordered(events) && InPlace(events, e, newer, spared)
    ensures InPlace(Trim(events, now), e, newer, spared && !Expired(e, now) && |newer| < 4096)
  {
    TrimKeeps(events, now);
    var kept := Trim(events, now);
    if spared {
      var at := |events| - 1 - |newer|;
      assert events[at] == ([e] + newer)[0];
      if !Expired(e, now) && |newer| < 4096 {
        assert |events| - |kept| <= at;
      } else {
        forall i | 0 <= i < |kept| ensures kept[i].key != e.key {
          assert kept[i] == events[|events| - |kept| + i];
        }
      }
    } else {
      forall i | 0 <= i < |kept| ensures kept[i].key != e.key {
        assert kept[i] == events[|events| - |kept| + i];
      }
    }
  }

  lemma ReceiveInPlace(events: seq<Entry>, key: Key, now: real, e: Entry, newer: seq<Entry>, spared: bool)
    requires Ordered(events) && InPlace(events, e, newer, spared)
    requires !Has(Trim(events, now), key) ==> key != e.key
    ensures InPlace(AfterReceive(events, key, now), e,
                    newer + (if Has(Trim(events, now), key) then [] else [Entry(key, now)]),
                    spared && !Expired(e, now) && |newer| < 4096)
  {
    TrimInPlace(events, now, e, newer, spared);
    var kept := Trim(events, now);
    if !Has(kept, key) {
      assert [e] + (newer + [Entry(key, now)]) == ([e] + newer) + [Entry(key, now)];
    } else {
      assert newer + [] == newer;
    }
  }

  lemma {:induction false} WithoutOn(first: seq<Entry>, second: seq<Entry>, key: Key)
    ensures Without(first + second, key) == Without(first, key) + Without(second, key)
  {
    if first == [] {
      assert first + second == second;
    } else {
      assert (first + second)[1..] == first[1..] + second;
      WithoutOn(first[1..], second, key);
    }
  }

  lemma ReleaseInPlace(events: seq<Entry>, key: Key, e: Entry, newer: seq<Entry>, spared: bool)
    requires InPlace(events, e, newer, spared) && key != e.key
    ensures InPlace(Without(events, key), e, Without(newer, key), spared)
  {
    if spared {
      var cut := |events| - |newer| - 1;
      assert events == events[..cut] + ([e] + newer);
      WithoutOn(events[..cut], [e] + newer, key);
      WithoutOn([e], newer, key);
      assert Without([e], key) == [e];
    } else {
      var less := Without(events, key);
      forall i | 0 <= i < |less| ensures less[i].key != e.key {
        WithoutMember(events, key, less[i]);
      }
    }
  }

  lemma StandingPrefix(ops: seq<Op>, p: nat)
    requires p < |ops| - 1 && Standing(ops, p)
    ensures Standing(ops[..|ops| - 1], p)
  {
    var n := |ops| - 1;
    AcceptedInPrefix(ops, n, p);
    forall q | p < q < n ensures Accepted(ops[..n], q) == Accepted(ops, q) { AcceptedInPrefix(ops, n, q); }
  }

  lemma SparedSnoc(ops: seq<Op>, p: nat)
    requires p < |ops| - 1 && ops[p].Receive?
    ensures var n := |ops| - 1;
      Spared(ops, p) <==>
        Spared(ops[..n], p)
        && (ops[n].Receive? ==> |Newer(ops[..n], p)| < 4096 && ops[n].now - ops[p].now <= 600.0)
  {
    var n := |ops| - 1;
    assert forall r :: 0 <= r < n ==> ops[..n][..r] == ops[..r] && ops[..n][r] == ops[r];
  }

  /** Where the last entry of a key is after a whole history. */
  lemma {:induction false} EntryInPlace(ops: seq<Op>, now: real, p: nat)
    requires Clocked(ops, now) && Standing(ops, p)
    ensures InPlace(Replay(ops), Entry(ops[p].key, ops[p].now), Newer(ops, p), Spared(ops, p))
    decreases |ops|
  {
    var n := |ops| - 1;
    if p == n {
      AcceptedIsLast(ops);
    } else {
      StandingPrefix(ops, p);
      SparedSnoc(ops, p);
      var earlier := if ops[n].Receive? then ops[n].now else now;
      assert Clocked(ops[..n], earlier);
      EntryInPlace(ops[..n], earlier, p);
      ReplayOrdered(ops[..n], earlier);
      InPlaceStep(ops, p);
    }
  }

  lemma AcceptedIsLast(ops: seq<Op>)
    requires ops != [] && Accepted(ops, |ops| - 1)
    ensures var e := Entry(ops[|ops| - 1].key, ops[|ops| - 1].now); EndsIn(Replay(ops), [e] + [])
  {
  }

  lemma InPlaceStep(ops: seq<Op>, p: nat)
    requires p < |ops| - 1 && Standing(ops, p) && ops[p].Receive?
    requires var n := |ops| - 1;
      && Ordered(Replay(ops[..n]))
      && InPlace(Replay(ops[..n]), Entry(ops[p].key, ops[p].now), Newer(ops[..n], p), Spared(ops[..n], p))
      && (Spared(ops, p) <==>
            Spared(ops[..n], p)
            && (ops[n].Receive? ==> |Newer(ops[..n], p)| < 4096 && ops[n].now - ops[p].now <= 600.0))
    ensures InPlace(Replay(ops), Entry(ops[p].key, ops[p].now), Newer(ops, p), Spared(ops, p))
  {
    if ops[|ops| - 1].Receive? { ReceivedInPlace(ops, p); } else { ReleasedInPlace(ops, p); }
  }

  lemma ReceivedInPlace(ops: seq<Op>, p: nat)
    requires p < |ops| - 1 && ops[p].Receive? && ops[|ops| - 1].Receive?
    requires Accepted(ops, |ops| - 1) ==> ops[|ops| - 1].key != ops[p].key
    requires var before := ops[..|ops| - 1];
      Ordered(Replay(before)) && InPlace(Replay(before), Entry(ops[p].key, ops[p].now), Newer(before, p),
          Spared(before, p))
    ensures var before, op := ops[..|ops| - 1], ops[|ops| - 1];
      InPlace(Replay(ops), Entry(ops[p].key, ops[p].now), Newer(ops, p),
              Spared(before, p) && |Newer(before, p)| < 4096 && op.now - ops[p].now <= 600.0)
  {
    var before, op, e := ops[..|ops| - 1], ops[|ops| - 1], Entry(ops[p].key, ops[p].now);
    ReceiveInPlace(Replay(before), op.key, op.now, e, Newer(before, p), Spared(before, p));
  }

  lemma ReleasedInPlace(ops: seq<Op>, p: nat)
    requires p < |ops| - 1 && ops[p].Receive? && ops[|ops| - 1].Release? && ops[|ops| - 1].key != ops[p].key
    requires var before := ops[..|ops| - 1];
      InPlace(Replay(before), Entry(ops[p].key, ops[p].now), Newer(before, p), Spared(before, p))
    ensures InPlace(Replay(ops), Entry(ops[p].key, ops[p].now), Newer(ops, p), Spared(ops[..|ops| - 1], p))
  {
    var before, op := ops[..|ops| - 1], ops[|ops| - 1];
    ReleaseInPlace(Replay(before), op.key, Entry(ops[p].key, ops[p].now), Newer(before, p), Spared(before, p));
  }

  // ------------------------------------------------------------------ the main result

  /** The message at p was new, had this key, and is neither released nor older than ten minutes. */
  ghost predicate LiveAccept(ops: seq<Op>, key: Key, now: real, p: nat) {
    p < |ops| && Accepted(ops, p) && ops[p].key == key && !ReleasedSince(ops, key, p) && now - ops[p].now <= 600.0
  }

  /** A message is called a duplicate only if its key was accepted within the last ten minutes
      and not released since; and as long as fewer than 4096 messages were accepted in between,
      it is called one whenever that is so. */
  lemma DuplicateMeaning(ops: seq<Op>, key: Key, now: real)
    requires Clocked(ops, now)
    ensures Answer(ops, key, now) ==> exists p :: LiveAccept(ops, key, now, p)
    ensures forall p: nat :: LiveAccept(ops, key, now, p) && AcceptsSince(ops, p + 1) < 4096 ==>
        Answer(ops, key, now)
  {
    ReplayOrdered(ops, now);
    if Answer(ops, key, now) {
      AnswerHasOrigin(ops, key, now);
    }
    forall p: nat | LiveAccept(ops, key, now, p) && AcceptsSince(ops, p + 1) < 4096
        ensures Answer(ops, key, now)
    {
      EntryStays(ops, now, p);
      TrimSits(Replay(ops), now, Entry(key, ops[p].now), AcceptsSince(ops, p + 1));
    }
  }

  lemma AnswerHasOrigin(ops: seq<Op>, key: Key, now: real)
    requires Clocked(ops, now) && Ordered(Replay(ops)) && Answer(ops, key, now)
    ensures exists p :: LiveAccept(ops, key, now, p)
  {
    var events, kept := Replay(ops), Trim(Replay(ops), now);
    TrimKeeps(events, now);
    var i :| 0 <= i < |kept| && kept[i].key == key;
    var e := events[|events| - |kept| + i];
    EntryHasOrigin(ops, now, e);
    var p :| OriginAt(ops, e, p);
    assert LiveAccept(ops, key, now, p);
  }

  /** Fewer than 4096 newer entries stood behind it at every receipt since, and do now. */
  ghost predicate NeverPushedOut(ops: seq<Op>, p: nat) {
    && |Newer(ops, p)| < 4096
    && forall r :: p < r < |ops| && ops[r].Receive? ==> |Newer(ops[..r], p)| < 4096
  }

  /** For whole histories: the last acceptance of a key, unreleased since, is remembered exactly while
      it is unexpired and was never pushed out by 4096 newer entries. */
  lemma StandingIsRemembered(ops: seq<Op>, p: nat, now: real)
    requires Clocked(ops, now) && Standing(ops, p)
    ensures Answer(ops, ops[p].key, now) <==> now - ops[p].now <= 600.0 && NeverPushedOut(ops, p)
  {
    var e := Entry(ops[p].key, ops[p].now);
    EntryInPlace(ops, now, p);
    ReplayOrdered(ops, now);
    TrimInPlace(Replay(ops), now, e, Newer(ops, p), Spared(ops, p));
    var kept := Trim(Replay(ops), now);
    if now - e.at <= 600.0 {
      assert Spared(ops, p) <==>
        forall r :: p < r < |ops| && ops[r].Receive? ==> |Newer(ops[..r], p)| < 4096;
    }
    if EndsIn(kept, [e] + Newer(ops, p)) {
      assert kept[|kept| - 1 - |Newer(ops, p)|] == ([e] + Newer(ops, p))[0];
    }
  }

  /** The exact meaning of "duplicate", for every history and key. */
  lemma DuplicateIff(ops: seq<Op>, key: Key, now: real)
    requires Clocked(ops, now)
    ensures Answer(ops, key, now) <==>
      exists p: nat :: Standing(ops, p) && ops[p].key == key && now - ops[p].now <= 600.0 && NeverPushedOut(ops, p)
  {
    if Answer(ops, key, now) {
      ReplayOrdered(ops, now);
      AnswerHasOrigin(ops, key, now);
      var p: nat :| LiveAccept(ops, key, now, p);
      var last := LastAcceptance(ops, key, p);
      StandingIsRemembered(ops, last, now);
      assert Standing(ops, last) && NeverPushedOut(ops, last);
    }
    forall p: nat | Standing(ops, p) && ops[p].key == key && now - ops[p].now <= 600.0 && NeverPushedOut(ops, p)
      ensures Answer(ops, key, now)
    {
      StandingIsRemembered(ops, p, now);
    }
  }

  lemma {:induction false} LastAcceptance(ops: seq<Op>, key: Key, p: nat) returns (last: nat)
    requires p < |ops| && Accepted(ops, p) && ops[p].key == key && !ReleasedSince(ops, key, p)
    ensures Standing(ops, last) && ops[last].key == key
    decreases |ops| - p
  {
    if q: nat :| p < q < |ops| && Accepted(ops, q) && ops[q].key == key {
      last := LastAcceptance(ops, key, q);
    } else {
      last := p;
    }
  }

  ghost predicate LastWord(ops: seq<Op>, p: nat)
    requires p < |ops|
  {
    && Accepted(ops, p)
    && (forall q :: p < q < |ops| ==> ops[q].Receive? && (Accepted(ops, q) ==> ops[q].key != ops[p].key))
  }

  lemma {:induction false} NewerCounts(ops: seq<Op>, p: nat)
    requires p < |ops| && forall q :: p < q < |ops| ==> ops[q].Receive?
    ensures |Newer(ops, p)| == AcceptsSince(ops, p + 1)
    decreases |ops|
  {
    if p < |ops| - 1 { NewerCounts(ops[..|ops| - 1], p); }
  }

  /** Without releases the newer entries only ever grow in number. */
  lemma {:induction false} NewerGrows(ops: seq<Op>, p: nat, r: nat)
    requires p < r <= |ops| && forall q :: p < q < |ops| ==> ops[q].Receive?
    ensures |Newer(ops[..r], p)| <= |Newer(ops, p)|
    decreases |ops|
  {
    if r == |ops| {
      assert ops[..r] == ops;
    } else {
      assert ops[..|ops| - 1][..r] == ops[..r];
      NewerGrows(ops[..|ops| - 1], p, r);
    }
  }

  /** Without releases after it, a key accepted last is remembered exactly while it is
      unexpired and fewer than 4096 messages were accepted after it: the bound is tight. */
  lemma RememberedIff(ops: seq<Op>, p: nat, now: real)
    requires Clocked(ops, now) && p < |ops| && LastWord(ops, p)
    ensures Answer(ops, ops[p].key, now) <==> now - ops[p].now <= 600.0 && AcceptsSince(ops, p + 1) < 4096
  {
    NewerCounts(ops, p);
    forall r: nat | p < r < |ops| ensures |Newer(ops[..r], p)| <= |Newer(ops, p)| { NewerGrows(ops, p, r); }
    StandingIsRemembered(ops, p, now);
  }

  // ------------------------------------------------------------------ the table object

  class InboundDedupe {
    var events: seq<Entry>
    ghost var ops: seq<Op>
    ghost var clock: real

    ghost predicate Valid()
      reads this
    {
      events == Replay(ops) && Clocked(ops, clock)
    }

    constructor ()
      ensures Valid() && ops == []
    {
      events := [];
      ops := [];
    }

    /** A message without a dedupe key is never a duplicate and leaves the table alone. */
    method IsDuplicate(maybeKey: Option<Key>, now: real) returns (duplicate: bool)
      requires Valid() && clock <= now
      modifies this
      ensures Valid()
      ensures maybeKey.None? ==> !duplicate && events == old(events) && ops == old(ops)
      ensures maybeKey.Some? ==>
                && clock == now && ops == old(ops) + [Receive(maybeKey.value, now)]
                && (duplicate <==> Answer(old(ops), maybeKey.value, now))
                && events == AfterReceive(old(events), maybeKey.value, now)
    {
      if maybeKey.None? { return false; }
      var key := maybeKey.value;
      ReplayOrdered(ops, clock);
      ghost var before := events;
      Expire(now);
      DropOldest();
      duplicate := Has(events, key);
      if !duplicate {
        events := events + [Entry(key, now)];
      }
      assert before == Replay(ops) && events == AfterReceive(before, key, now);
      ghost var history := ops + [Receive(key, now)];
      ops, clock := history, now;
    }

    /** The first loop: expired entries are popped from the front. */
    method Expire(now: real)
      requires Ordered(events)
      modifies this`events
      ensures events == Unexpired(old(events), now)
    {
      ghost var before := events;
      ghost var cut := 0;
      while events != []
        invariant 0 <= cut <= |before| && events == before[cut..]
        invariant forall i :: 0 <= i < cut ==> Expired(before[i], now)
        decreases |events|
      {
        if now - events[0].at > TTL {
          events := events[1..];
          cut := cut + 1;
        } else {
          break;
        }
      }
      UnexpiredIsSuffix(before, now, cut);
    }

    /** The second loop: the oldest entries over the bound are popped. */
    method DropOldest()
      modifies this`events
      ensures events == Latest(old(events), MAX_ENTRIES)
    {
      ghost var live := events;
      while |events| > MAX_ENTRIES
        invariant |events| <= |live| && events == live[|live| - |events|..]
        invariant |live| > MAX_ENTRIES ==> |events| >= MAX_ENTRIES
        invariant |live| <= MAX_ENTRIES ==> events == live
        decreases |events|
      {
        events := events[1..];
      }
    }

    method Release(key: Key)
      requires Valid()
      modifies this
      ensures Valid() && clock == old(clock) && ops == old(ops) + [Op.Release(key)]
      ensures events == Without(old(events), key)
    {
      ghost var history := ops + [Op.Release(key)];
      events := Without(events, key);
      ops := history;
    }
  }
}
