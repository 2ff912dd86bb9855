/** The bounded readiness cache with single-flight probes
    (backend/app/gateway/capability_readiness.py).

    `Table` is the state the cache lock protects and `ReadinessTable` the code of the
    two critical sections. The protocol around them is a transition system: a call is
    interrupted wherever the code awaits, and between updating the table under the
    lock and setting the future's result outside it. */
module CapabilityReadiness {
  import opened Options
  import opened RecencyLists

  const TTL: real := 15.0
  const MAX_ENTRIES: nat := 128
  const MAX_INFLIGHT: nat := 128

  datatype Key = Key(adapters: seq<string>, assistant: string, agent: string, user: Option<string>)

  datatype Reason = Capacity | WaitTimeout | ProbeTimeout | Execution | ProbeCancelled

  datatype Checks = Probed(evidence: nat) | Fallback(reason: Reason)

  datatype Entry = Entry(expires: real, checks: Checks)

  /** `order` and `entries` are the OrderedDict, least recently used first; an in-flight future
      is named after the call that owns it. */
  datatype Table = Table(order: seq<Key>, entries: map<Key, Entry>, inflight: map<Key, nat>)

  datatype Outcome = Hit(checks: Checks) | Join(owner: nat) | Full | Own

  predicate Fresh(t: Table, key: Key, now: real) {
    key in t.entries && t.entries[key].expires > now
  }

  /** The first critical section: answer from the cache, join a probe, or become its owner. */
  function Lookup(t: Table, key: Key, caller: nat, now: real): (Table, Outcome) {
    if Fresh(t, key, now) then
      (t.(order := Touch(t.order, key)), Hit(t.entries[key].checks))
    else
      var u := if key in t.entries then t.(order := Drop(t.order, key), entries := t.entries - {key}) else t;
      if key in u.inflight then (u, Join(u.inflight[key]))
      else if |u.inflight| >= MAX_INFLIGHT then (u, Full)
      else (u.(inflight := u.inflight[key := caller]), Own)
  }

  /** The second critical section: retire the future, cache the checks, evict the oldest. */
  function Complete(t: Table, key: Key, owner: nat, checks: Checks, now: real): Table {
    var order := Latest(Touch(t.order, key), MAX_ENTRIES);
    var entries := t.entries[key := Entry(now + TTL, checks)];
    Table(order,
          map k | k in entries && k in order :: entries[k],
          if key in t.inflight && t.inflight[key] == owner then t.inflight - {key} else t.inflight)
  }

  // ------------------------------------------------------------------ the module-level table

  class ReadinessTable {
    var order: seq<Key>
    var entries: map<Key, Entry>
    var inflight: map<Key, nat>

    function Value(): Table
      reads this
    {
      Table(order, entries, inflight)
    }

    ghost predicate Valid()
      reads this
    {
      Distinct(order) && forall k :: k in order <==> k in entries
    }

    constructor ()
      ensures Valid() && Value() == Table([], map[], map[])
    {
      order, entries, inflight := [], map[], map[];
    }

    method Begin(key: Key, caller: nat, now: real) returns (outcome: Outcome)
      requires Valid()
      modifies this
      ensures Valid() && (Value(), outcome) == Lookup(old(Value()), key, caller, now)
    {
      if key in entries {
        DropDistinct(order, key);
        TouchDistinct(order, key);
        ghost var before := order;
        if entries[key].expires > now {
          order := Touch(order, key);
          return Hit(entries[key].checks);
        }
        order := Drop(order, key);
        entries := entries - {key};
        forall k ensures k in order <==> k in entries { DropMember(before, key, k); }
      }
      if key in inflight { return Join(inflight[key]); }
      if |inflight| >= MAX_INFLIGHT { return Full; }
      inflight := inflight[key := caller];
      return Own;
    }

    method CompleteProbe(key: Key, owner: nat, checks: Checks, now: real)
      requires Valid()
      modifies this
      ensures Valid() && Value() == Complete(old(Value()), key, owner, checks, now)
    {
      if key in inflight && inflight[key] == owner {
        inflight := inflight - {key};
      }
      TouchDistinct(order, key);
      entries := entries[key := Entry(now + TTL, checks)];
      order := Touch(order, key);
      Evict();
    }

    /** `while len(_CACHE) > _MAX_CACHE_ENTRIES: _CACHE.popitem(last=False)` */
    method Evict()
      requires Valid()
      modifies this`order, this`entries
      ensures Valid() && order == Latest(old(order), MAX_ENTRIES)
      ensures entries == map k | k in old(entries) && k in order :: old(entries)[k]
    {
      ghost var all := order;
      while |order| > MAX_ENTRIES
        invariant Valid() && Submap(entries, old(entries))
        invariant |order| <= |all| && order == all[|all| - |order|..]
        invariant |order| == |all| || |order| >= MAX_ENTRIES
        decreases |order|
      {
        PopOldest();
      }
      RestrictedTo(old(entries), order, entries);
    }

    method PopOldest()
      requires Valid() && order != []
      modifies this`order, this`entries
      ensures Valid() && order == old(order)[1..] && Submap(entries, old(entries))
    {
      DistinctTail(order);
      entries := entries - {order[0]};
      order := order[1..];
    }

    method Clear()
      requires Valid()
      modifies this
      ensures Valid() && Value() == old(Value()).(order := [], entries := map[])
    {
      order, entries := [], map[];
    }
  }

  // ------------------------------------------------------------------ the protocol

  datatype Via = ViaHit | ViaProbe | ViaWait(owner: nat) | ViaTimeout(owner: nat) | ViaCapacity

  datatype Pc =
    | Probing                              // owns the in-flight probe
    | Waiting(owner: nat)                  // awaits another call's future
    | Publishing(checks: Checks, raising: bool)  // table updated, future not set yet
    | Answered(checks: Checks, via: Via)
    | Cancelled

  datatype Call = Call(key: Key, pc: Pc)

  /** How a probe ended; each way has its checks. */
  datatype Ending = Success(evidence: nat) | Expiry | Exception | Cancellation

  function ChecksOf(ending: Ending): Checks {
    match ending
    case Success(evidence) => Probed(evidence)
    case Expiry => Fallback(ProbeTimeout)
    case Exception => Fallback(Execution)
    case Cancellation => Fallback(ProbeCancelled)
  }

  /** The program state (table, futures, calls) with three records of the past: the checks each
      owner produced, the latest result per key, and the keys by last use since the last clear. */
  datatype State = State(
    table: Table,
    futures: map<nat, Checks>,
    calls: map<nat, Call>,
    next: nat,
    clock: real,
    results: map<nat, Checks>,
    latest: map<Key, Entry>,
    recency: seq<Key>)

  datatype Action =
    | Request(key: Key, now: real)
    | Finish(call: nat, ending: Ending, now: real)
    | Publish(call: nat)
    | Resolve(call: nat)
    | GiveUp(call: nat)
    | CancelWait(call: nat)
    | ClearCache

  predicate Enabled(s: State, a: Action) {
    match a
    case Request(_, now) => s.clock <= now
    case Finish(c, _, now) => s.clock <= now && c in s.calls && s.calls[c].pc.Probing?
    case Publish(c) => c in s.calls && s.calls[c].pc.Publishing?
    case Resolve(c) => c in s.calls && s.calls[c].pc.Waiting? && s.calls[c].pc.owner in s.futures
    case GiveUp(c) => c in s.calls && s.calls[c].pc.Waiting?
    case CancelWait(c) => c in s.calls && s.calls[c].pc.Waiting?
    case ClearCache => true
  }

  function PcFor(outcome: Outcome): Pc {
    match outcome
    case Hit(checks) => Answered(checks, ViaHit)
    case Join(owner) => Waiting(owner)
    case Full => Answered(Fallback(Capacity), ViaCapacity)
    case Own => Probing
  }

  function Goto(s: State, c: nat, pc: Pc): State
    requires c in s.calls
  {
    s.(calls := s.calls[c := s.calls[c].(pc := pc)])
  }

  function Apply(s: State, a: Action): State
    requires Enabled(s, a)
  {
    match a
    case Request(key, now) =>
      var (table, outcome) := Lookup(s.table, key, s.next, now);
      s.(table := table, calls := s.calls[s.next := Call(key, PcFor(outcome))], next := s.next + 1, clock := now,
         recency := if outcome.Hit? then Touch(s.recency, key) else s.recency)
    case Finish(c, ending, now) =>
      var key, checks := s.calls[c].key, ChecksOf(ending);
      Goto(s, c, Publishing(checks, ending.Cancellation?)).(
        table := Complete(s.table, key, c, checks, now), clock := now,
        results := s.results[c := checks], latest := s.latest[key := Entry(now + TTL, checks)],
        recency := Touch(s.recency, key))
    case Publish(c) =>
      var pc := s.calls[c].pc;
      Goto(s, c, if pc.raising then Cancelled else Answered(pc.checks, ViaProbe)).(
        futures := if c in s.futures then s.futures else s.futures[c := pc.checks])
    case Resolve(c) => Goto(s, c, Answered(s.futures[s.calls[c].pc.owner], ViaWait(s.calls[c].pc.owner)))
    case GiveUp(c) => Goto(s, c, Answered(Fallback(WaitTimeout), ViaTimeout(s.calls[c].pc.owner)))
    case CancelWait(c) => Goto(s, c, Cancelled)
    case ClearCache => s.(table := s.table.(order := [], entries := map[]), recency := [])
  }

  predicate Initial(s: State) {
    s.table == Table([], map[], map[]) && s.futures == map[] && s.calls == map[] && s.results == map[]
    && s.latest == map[] && s.recency == []
  }

  predicate Runs(s: State, actions: seq<Action>)
    decreases |actions|
  {
    actions == [] || (Enabled(s, actions[0]) && Runs(Apply(s, actions[0]), actions[1..]))
  }

  function After(s: State, actions: seq<Action>): State
    requires Runs(s, actions)
    decreases |actions|
  {
    if actions == [] then s else After(Apply(s, actions[0]), actions[1..])
  }

  // ------------------------------------------------------------------ the cache against its history

  /** The cached keys are the recently used ones in order of use, each with its latest result. A
      key used since the last clear is missing only if expired or behind 128 more recent ones. */
  ghost predicate CacheOk(order: seq<Key>, entries: map<Key, Entry>, recency: seq<Key>, latest: map<Key, Entry>,
        clock: real) {
    |order| <= MAX_ENTRIES && Follows(order, entries, recency, latest, clock)
  }

  ghost predicate Follows(order: seq<Key>, entries: map<Key, Entry>, recency: seq<Key>, latest: map<Key, Entry>,
        clock: real) {
    && Distinct(recency)
    && (forall k :: k in entries ==> k in recency && k in latest && entries[k] == latest[k])
    && order == Keep(recency, entries.Keys)
    && (forall k :: k in recency ==> k in latest && (k in entries || Excused(recency, latest, clock, k)))
  }

  ghost predicate Excused(recency: seq<Key>, latest: map<Key, Entry>, clock: real, k: Key)
    requires k in latest
  {
    latest[k].expires <= clock || Behind(recency, k) >= MAX_ENTRIES
  }

  ghost predicate CacheInv(s: State) {
    CacheOk(s.table.order, s.table.entries, s.recency, s.latest, s.clock)
  }

  lemma {:induction false} KeepDistinct(xs: seq<Key>, those: set<Key>)
    requires Distinct(xs)
    ensures Distinct(Keep(xs, those))
  {
    if xs != [] {
      KeepDistinct(xs[1..], those);
      var rest := Keep(xs[1..], those);
      forall j | 0 <= j < |rest| ensures xs[0] != rest[j] {
        KeepMember(xs[1..], those, rest[j]);
        var k :| 0 <= k < |xs[1..]| && xs[1..][k] == rest[j];
        assert xs[k + 1] == rest[j];
      }
    }
  }

  lemma OrderMembers(order: seq<Key>, recency: seq<Key>, entries: map<Key, Entry>)
    requires Distinct(recency) && order == Keep(recency, entries.Keys)
    requires forall k :: k in entries ==> k in recency
    ensures Distinct(order) && forall k :: k in order <==> k in entries
  {
    forall k ensures k in order <==> k in entries {
      KeepMember(recency, entries.Keys, k);
    }
    KeepDistinct(recency, entries.Keys);
  }

  /** Using `key` moves it to the recent end of both lists and brings nobody else forward. */
  lemma UseKey(order: seq<Key>, recency: seq<Key>, key: Key, those: set<Key>)
    requires Distinct(recency) && order == Keep(recency, those)
    ensures Distinct(Touch(recency, key))
    ensures Touch(order, key) == Keep(Touch(recency, key), those + {key})
    ensures forall k :: k in Touch(recency, key) <==> k in recency || k == key
    ensures forall k :: k in recency && k != key ==> Behind(Touch(recency, key), k) >= Behind(recency, k)
  {
    TouchDistinct(recency, key);
    TouchOfKeep(recency, key, those);
    forall k | k in recency && k != key ensures Behind(Touch(recency, key), k) >= Behind(recency, k) {
      BehindTouch(recency, k, key);
    }
  }

  lemma HitOk(order: seq<Key>, entries: map<Key, Entry>, recency: seq<Key>, latest: map<Key, Entry>, clock: real,
        key: Key, now: real)
    requires CacheOk(order, entries, recency, latest, clock) && clock <= now && key in entries
    ensures CacheOk(Touch(order, key), entries, Touch(recency, key), latest, now)
  {
    StoreFollows(order, entries, recency, latest, clock, key, entries[key], now);
    assert entries[key := entries[key]] == entries && latest[key := entries[key]] == latest;
    TouchLength(order, entries, recency, key);
  }

  lemma TouchLength(order: seq<Key>, entries: map<Key, Entry>, recency: seq<Key>, key: Key)
    requires Distinct(recency) && order == Keep(recency, entries.Keys) && forall k :: k in entries ==> k in recency
    ensures |Touch(order, key)| == if key in entries then |order| else |order| + 1
  {
    OrderMembers(order, recency, entries);
    DropDistinct(order, key);
  }

  lemma ExpireOk(order: seq<Key>, entries: map<Key, Entry>, recency: seq<Key>, latest: map<Key, Entry>,
        clock: real, key: Key)
    requires CacheOk(order, entries, recency, latest, clock) && key in entries && entries[key].expires <= clock
    ensures CacheOk(Drop(order, key), entries - {key}, recency, latest, clock)
  {
    OrderMembers(order, recency, entries);
    DropDistinct(order, key);
    DropOfKeep(recency, key, entries.Keys);
    assert (entries - {key}).Keys == entries.Keys - {key};
  }

  lemma StoreFollows(order: seq<Key>, entries: map<Key, Entry>, recency: seq<Key>, latest: map<Key, Entry>, clock: real,
                     key: Key, e: Entry, now: real)
    requires Follows(order, entries, recency, latest, clock) && clock <= now
    ensures Follows(Touch(order, key), entries[key := e], Touch(recency, key), latest[key := e], now)
  {
    UseKey(order, recency, key, entries.Keys);
    assert entries[key := e].Keys == entries.Keys + {key};
  }

  lemma EvictFollows(order: seq<Key>, entries: map<Key, Entry>, recency: seq<Key>, latest: map<Key, Entry>, clock: real)
    requires Follows(order, entries, recency, latest, clock) && |order| > MAX_ENTRIES
    ensures Follows(order[1..], entries - {order[0]}, recency, latest, clock)
  {
    OrderMembers(order, recency, entries);
    EvictOldest(recency, entries.Keys, order);
    assert (entries - {order[0]}).Keys == entries.Keys - {order[0]};
  }

  /** Completing a probe stores its checks as the newest and evicts the least recent key. */
  lemma CompleteOk(t: Table, recency: seq<Key>, latest: map<Key, Entry>, clock: real, key: Key, owner: nat,
        checks: Checks, now: real)
    requires CacheOk(t.order, t.entries, recency, latest, clock) && clock <= now
    ensures var u := Complete(t, key, owner, checks, now);
            CacheOk(u.order, u.entries, Touch(recency, key), latest[key := Entry(now + TTL, checks)], now)
  {
    var e := Entry(now + TTL, checks);
    var order, entries := Touch(t.order, key), t.entries[key := e];
    StoreFollows(t.order, t.entries, recency, latest, clock, key, e, now);
    TouchLength(t.order, t.entries, recency, key);
    BoundOk(order, entries, Touch(recency, key), latest[key := e], now);
  }

  lemma BoundOk(order: seq<Key>, entries: map<Key, Entry>, recency: seq<Key>, latest: map<Key, Entry>, clock: real)
    requires Follows(order, entries, recency, latest, clock) && |order| <= MAX_ENTRIES + 1
    ensures var newest := Latest(order, MAX_ENTRIES);
      CacheOk(newest, map k | k in entries && k in newest :: entries[k], recency, latest, clock)
  {
    OrderMembers(order, recency, entries);
    Restricted(order, entries);
    if |order| > MAX_ENTRIES {
      EvictFollows(order, entries, recency, latest, clock);
    }
  }

  lemma Restricted(order: seq<Key>, entries: map<Key, Entry>)
    requires Distinct(order) && forall k :: k in order <==> k in entries
    ensures (map k | k in entries && k in order :: entries[k]) == entries
    ensures order != [] ==> (map k | k in entries && k in order[1..] :: entries[k]) == entries - {order[0]}
  {
    if order != [] { DistinctTail(order); }
  }

  lemma EvictOldest(recency: seq<Key>, those: set<Key>, order: seq<Key>)
    requires order != [] && Distinct(order) && order == Keep(recency, those)
    ensures order[0] in recency && order[0] in those
    ensures order[1..] == Keep(recency, those - {order[0]})
    ensures Behind(recency, order[0]) >= |order| - 1
  {
    KeepMember(recency, those, order[0]);
    DropOfKeep(recency, order[0], those);
    DropDistinct(order[1..], order[0]);
    BehindKeep(recency, order[0], those);
  }

  lemma LaterOk(order: seq<Key>, entries: map<Key, Entry>, recency: seq<Key>, latest: map<Key, Entry>,
        clock: real, now: real)
    requires CacheOk(order, entries, recency, latest, clock) && clock <= now
    ensures CacheOk(order, entries, recency, latest, now)
  {
  }

  lemma MissOk(order: seq<Key>, entries: map<Key, Entry>, recency: seq<Key>, latest: map<Key, Entry>,
        clock: real, key: Key, now: real)
    requires CacheOk(order, entries, recency, latest, clock) && clock <= now
    requires key in entries ==> entries[key].expires <= now
    ensures if key in entries then CacheOk(Drop(order, key), entries - {key}, recency, latest, now)
            else CacheOk(order, entries, recency, latest, now)
  {
    LaterOk(order, entries, recency, latest, clock, now);
    if key in entries { ExpireOk(order, entries, recency, latest, now, key); }
  }

  lemma MissTable(t: Table, key: Key, caller: nat, now: real)
    requires !Fresh(t, key, now)
    ensures var u := Lookup(t, key, caller, now).0;
      && u.order == (if key in t.entries then Drop(t.order, key) else t.order)
      && u.entries == (if key in t.entries then t.entries - {key} else t.entries)
  {
  }

  lemma MissKeepsCache(s: State, key: Key, now: real)
    requires CacheInv(s) && s.clock <= now && !Fresh(s.table, key, now)
    ensures CacheInv(Apply(s, Request(key, now)))
  {
    MissTable(s.table, key, s.next, now);
    MissOk(s.table.order, s.table.entries, s.recency, s.latest, s.clock, key, now);
  }

  lemma RequestKeepsCache(s: State, key: Key, now: real)
    requires CacheInv(s) && s.clock <= now
    ensures CacheInv(Apply(s, Request(key, now)))
  {
    if Fresh(s.table, key, now) {
      HitOk(s.table.order, s.table.entries, s.recency, s.latest, s.clock, key, now);
    } else {
      MissKeepsCache(s, key, now);
    }
  }

  lemma CacheStep(s: State, a: Action)
    requires CacheInv(s) && Enabled(s, a)
    ensures CacheInv(Apply(s, a))
  {
    if a.Request? {
      RequestKeepsCache(s, a.key, a.now);
    } else if a.Finish? {
      CompleteOk(s.table, s.recency, s.latest, s.clock, s.calls[a.call].key, a.call, ChecksOf(a.ending), a.now);
    }
  }

  // ------------------------------------------------------------------ single flight

  /** The future of `owner` is or will be set: its probe runs, or it publishes, or it is done. */
  ghost predicate Promised(s: State, owner: nat, key: Key) {
    && owner in s.calls && s.calls[owner].key == key
    && (s.calls[owner].pc.Probing?
        || (owner in s.results && ((s.calls[owner].pc.Publishing? && s.calls[owner].pc.checks == s.results[owner])
                                   || (owner in s.futures && s.futures[owner] == s.results[owner]))))
  }

  ghost predicate AnswerOk(s: State, c: nat, key: Key, checks: Checks, via: Via) {
    match via
    case ViaHit => true
    case ViaProbe => c in s.results && s.results[c] == checks
    case ViaWait(owner) =>
      owner in s.calls && s.calls[owner].key == key && owner in s.results && s.results[owner] == checks
    case ViaTimeout(_) => checks == Fallback(WaitTimeout)
    case ViaCapacity => checks == Fallback(Capacity)
  }

  ghost predicate CallOk(s: State, c: nat)
    requires c in s.calls
  {
    var Call(key, pc) := s.calls[c];
    match pc
    case Probing => key in s.table.inflight && s.table.inflight[key] == c && c !in s.results
    case Waiting(owner) => Promised(s, owner, key)
    case Publishing(checks, _) => c in s.results && s.results[c] == checks && c !in s.futures
    case Answered(checks, via) => AnswerOk(s, c, key, checks, via)
    case Cancelled => true
  }

  ghost predicate FlightOk(s: State, key: Key)
    requires key in s.table.inflight
  {
    var c := s.table.inflight[key];
    c in s.calls && s.calls[c] == Call(key, Probing) && key !in s.table.entries
  }

  ghost predicate Known(s: State, c: nat) {
    && (c in s.results ==> c in s.calls)
    && (c in s.futures ==> c in s.results && s.futures[c] == s.results[c])
    && (c in s.calls ==> c < s.next)
  }

  ghost predicate FlightInv(s: State) {
    && (forall c <- s.calls :: CallOk(s, c))
    && (forall key <- s.table.inflight :: FlightOk(s, key))
    && (forall c :: Known(s, c))
    && |s.table.inflight| <= MAX_INFLIGHT
  }

  lemma KnownStep(s: State, a: Action, c: nat)
    requires Enabled(s, a) && Known(s, c) && (!a.Request? && !a.ClearCache? ==> Known(s, a.call))
    requires s.next !in s.results && s.next !in s.calls
    requires a.Publish? || a.Finish? ==> CallOk(s, a.call)
    ensures Known(Apply(s, a), c)
  {
  }

  lemma OthersUntouched(s: State, a: Action, c: nat)
    requires Enabled(s, a) && c in s.calls && s.next !in s.calls
    requires a.Request? || a.ClearCache? || c != a.call
    ensures c in Apply(s, a).calls && Apply(s, a).calls[c] == s.calls[c]
    ensures c in Apply(s, a).results <==> c in s.results
    ensures c in Apply(s, a).futures <==> c in s.futures
    ensures c in s.results ==> Apply(s, a).results[c] == s.results[c]
    ensures c in s.futures ==> Apply(s, a).futures[c] == s.futures[c]
  {
  }

  lemma ResultsStay(s: State, a: Action, c: nat)
    requires Enabled(s, a) && c in s.results && (a.Finish? ==> CallOk(s, a.call))
    requires c in s.calls && s.next !in s.calls
    ensures c in Apply(s, a).results && Apply(s, a).results[c] == s.results[c]
    ensures c in Apply(s, a).calls && Apply(s, a).calls[c].key == s.calls[c].key
  {
  }

  lemma PromiseStays(s: State, a: Action, owner: nat, key: Key)
    requires Enabled(s, a) && Promised(s, owner, key) && s.next !in s.calls
    requires CallOk(s, owner) && Known(s, owner)
    ensures Promised(Apply(s, a), owner, key)
  {
    if a.Request? || a.ClearCache? || owner != a.call { OthersUntouched(s, a, owner); }
  }

  lemma ProbeStays(s: State, a: Action, c: nat)
    requires Enabled(s, a) && c in s.calls && s.calls[c].pc.Probing? && CallOk(s, c)
    requires a.Request? || a.ClearCache? || c != a.call
    requires a.Finish? ==> CallOk(s, a.call)
    ensures s.calls[c].key in Apply(s, a).table.inflight && Apply(s, a).table.inflight[s.calls[c].key] == c
  {
  }

  lemma CallOkOther(s: State, a: Action, c: nat)
    requires FlightInv(s) && Enabled(s, a) && c in s.calls && s.next !in s.calls
    requires a.Request? || a.ClearCache? || c != a.call
    ensures CallOk(Apply(s, a), c)
  {
    assert CallOk(s, c) && Known(s, c);
    OthersUntouched(s, a, c);
    if !a.Request? && !a.ClearCache? { assert CallOk(s, a.call); }
    var pc := s.calls[c].pc;
    if pc.Waiting? {
      assert CallOk(s, pc.owner) && Known(s, pc.owner);
      PromiseStays(s, a, pc.owner, s.calls[c].key);
    } else if pc.Probing? {
      ProbeStays(s, a, c);
    } else if pc.Answered? && pc.via.ViaWait? {
      ResultsStay(s, a, pc.via.owner);
    }
  }

  lemma CallOkOwn(s: State, a: Action)
    requires Enabled(s, a) && !a.Request? && !a.ClearCache? && CallOk(s, a.call) && Known(s, a.call)
        && s.next !in s.calls
    requires s.calls[a.call].pc.Waiting? ==> var owner := s.calls[a.call].pc.owner;
               Promised(s, owner, s.calls[a.call].key) && Known(s, owner) && CallOk(s, owner)
    ensures CallOk(Apply(s, a), a.call)
  {
  }

  lemma CallOkNew(s: State, key: Key, now: real)
    requires Enabled(s, Request(key, now)) && s.next !in s.calls && s.next !in s.results
    requires key in s.table.inflight ==> FlightOk(s, key)
    ensures CallOk(Apply(s, Request(key, now)), s.next)
  {
  }

  lemma FlightOkStep(s: State, a: Action, key: Key)
    requires Enabled(s, a) && s.next !in s.calls && key in Apply(s, a).table.inflight
    requires key in s.table.inflight ==> FlightOk(s, key)
    requires a.Finish? ==> CallOk(s, a.call)
    ensures FlightOk(Apply(s, a), key)
  {
    if a.Request? {
      FlightOkRequest(s, a.key, a.now, key);
    } else if a.Finish? {
      FlightOkFinish(s, a, key);
    }
  }

  lemma FlightOkRequest(s: State, asked: Key, now: real, key: Key)
    requires Enabled(s, Request(asked, now)) && s.next !in s.calls
    requires key in Apply(s, Request(asked, now)).table.inflight && (key in s.table.inflight ==> FlightOk(s, key))
    ensures FlightOk(Apply(s, Request(asked, now)), key)
  {
    LookupTable(s.table, asked, s.next, now, key);
  }

  lemma FlightOkFinish(s: State, a: Action, key: Key)
    requires a.Finish? && Enabled(s, a) && key in Apply(s, a).table.inflight
    requires key in s.table.inflight ==> FlightOk(s, key)
    requires CallOk(s, a.call)
    ensures FlightOk(Apply(s, a), key)
  {
  }

  lemma LookupTable(t: Table, key: Key, caller: nat, now: real, other: Key)
    ensures var (u, outcome) := Lookup(t, key, caller, now);
            && (other in u.entries ==> other in t.entries)
            && (other in u.inflight ==>
                  (other in t.inflight && u.inflight[other] == t.inflight[other])
                  || (other == key && outcome == Own && u.inflight[other] == caller && key !in u.entries))
  {
  }

  lemma InflightBound(s: State, a: Action)
    requires Enabled(s, a) && |s.table.inflight| <= MAX_INFLIGHT
    ensures |Apply(s, a).table.inflight| <= MAX_INFLIGHT
  {
    if a.Finish? {
      var key := s.calls[a.call].key;
      assert (s.table.inflight - {key}).Keys == s.table.inflight.Keys - {key};
      assert |(s.table.inflight - {key}).Keys| <= |s.table.inflight.Keys|;
    }
  }

  ghost predicate Inv(s: State) {
    CacheInv(s) && FlightInv(s)
  }

  lemma InvStep(s: State, a: Action)
    requires Inv(s) && Enabled(s, a)
    ensures Inv(Apply(s, a))
  {
    var t := Apply(s, a);
    CacheStep(s, a);
    InflightBound(s, a);
    assert Known(s, s.next);
    if !a.Request? && !a.ClearCache? { assert CallOk(s, a.call); }
    forall c ensures Known(t, c) {
      assert Known(s, c);
      if !a.Request? && !a.ClearCache? { assert Known(s, a.call); }
      KnownStep(s, a, c);
    }
    forall c <- t.calls ensures CallOk(t, c) {
      if c !in s.calls { CallOkNew(s, a.key, a.now); }
      else if a.Request? || a.ClearCache? || c != a.call { CallOkOther(s, a, c); }
      else {
        assert Known(s, c) && CallOk(s, c);
        if s.calls[c].pc.Waiting? { assert Known(s, s.calls[c].pc.owner) && CallOk(s, s.calls[c].pc.owner); }
        CallOkOwn(s, a);
      }
    }
    forall key <- t.table.inflight ensures FlightOk(t, key) {
      FlightOkStep(s, a, key);
    }
  }

  /** Everything below holds after any interleaving of requests, endings, timeouts and clears. */
  lemma {:induction false} RunInv(s: State, actions: seq<Action>)
    requires Inv(s) && Runs(s, actions)
    ensures Inv(After(s, actions))
    decreases |actions|
  {
    if actions != [] {
      InvStep(s, actions[0]);
      RunInv(Apply(s, actions[0]), actions[1..]);
    }
  }

  ghost predicate ProbesFor(s: State, c: nat, d: nat) {
    && c in s.calls && s.calls[c].pc.Probing?
    && d in s.calls && s.calls[d].pc.Probing?
    && s.calls[c].key == s.calls[d].key
  }

  /** At most one probe runs per key, at most 128 run at all, and no key is both in flight and cached. */
  lemma SingleFlight(s: State, actions: seq<Action>)
    requires Initial(s) && Runs(s, actions)
    ensures var t := After(s, actions);
            && (forall c, d :: ProbesFor(t, c, d) ==> c == d)
            && |t.table.inflight| <= 128 && |t.table.order| <= 128
            && t.table.inflight.Keys !! t.table.entries.Keys
            && (forall key :: key in t.table.inflight <==>
                  exists c :: c in t.calls && t.calls[c] == Call(key, Probing))
  {
    RunInv(s, actions);
    var t := After(s, actions);
    forall c | c in t.calls && t.calls[c].pc.Probing?
      ensures t.calls[c].key in t.table.inflight && t.table.inflight[t.calls[c].key] == c
    {
      assert CallOk(t, c);
    }
    forall key <- t.table.inflight ensures FlightOk(t, key) {}
  }

  /** A waiter gets the timeout fallback or the checks its owner produced, which are the owner's own
      answer, or if the owner was cancelled, the fallback for that. */
  lemma WaiterAnswers(s: State, actions: seq<Action>, c: nat)
    requires Initial(s) && Runs(s, actions) && c in After(s, actions).calls && After(s, actions).calls[c].pc.Answered?
    ensures var t := After(s, actions);
            var checks, via := t.calls[c].pc.checks, t.calls[c].pc.via;
            && (via.ViaTimeout? ==> checks == Fallback(WaitTimeout))
            && (via.ViaWait? ==>
                  var o := via.owner;
                  && o in t.calls && t.calls[o].key == t.calls[c].key
                  && o in t.results && t.results[o] == checks
                  && (t.calls[o].pc.Answered? ==> t.calls[o].pc.via.ViaProbe? && t.calls[o].pc.checks == checks)
                  && (t.calls[o].pc.Cancelled? ==> checks == Fallback(ProbeCancelled)))
  {
    RunInv(s, actions);
    OwnersRun(s, actions);
    var t := After(s, actions);
    assert CallOk(t, c);
    if t.calls[c].pc.via.ViaWait? { assert CallOk(t, t.calls[c].pc.via.owner) && OwnerOk(t, t.calls[c].pc.via.owner); }
  }

  /** A call that produced checks publishes or answers them itself, or was cancelled with the fallback for that. */
  ghost predicate OwnerOk(s: State, c: nat) {
    c in s.results && c in s.calls ==>
      match s.calls[c].pc
      case Publishing(checks, raising) => checks == s.results[c] && (raising <==> checks == Fallback(ProbeCancelled))
      case Answered(checks, via) => via.ViaProbe? && checks == s.results[c] && checks != Fallback(ProbeCancelled)
      case Cancelled => s.results[c] == Fallback(ProbeCancelled)
      case _ => false
  }

  lemma OwnerStep(s: State, a: Action, c: nat)
    requires Enabled(s, a) && OwnerOk(s, c) && (c in s.results ==> c in s.calls && c < s.next)
    ensures OwnerOk(Apply(s, a), c)
  {
  }

  lemma {:induction false} OwnersRun(s: State, actions: seq<Action>)
    requires Inv(s) && Runs(s, actions) && forall c :: OwnerOk(s, c)
    ensures forall c :: OwnerOk(After(s, actions), c)
    decreases |actions|
  {
    if actions != [] {
      InvStep(s, actions[0]);
      forall c ensures OwnerOk(Apply(s, actions[0]), c) {
        assert Known(s, c);
        OwnerStep(s, actions[0], c);
      }
      OwnersRun(Apply(s, actions[0]), actions[1..]);
    }
  }

  /** However its probe ends, the owner of a waited-for future sets it: from any reachable state
      the owner's own next steps make the waiter ready. */
  lemma WaiterIsServed(s: State, c: nat, ending: Ending) returns (actions: seq<Action>)
    requires Inv(s) && c in s.calls && s.calls[c].pc.Waiting?
    ensures Runs(s, actions) && forall a <- actions :: (a.Finish? || a.Publish?) && a.call == s.calls[c].pc.owner
    ensures c in After(s, actions).calls && Enabled(After(s, actions), Resolve(c))
  {
    var o := s.calls[c].pc.owner;
    assert CallOk(s, c) && Known(s, o);
    if o in s.futures {
      actions := [];
    } else {
      assert CallOk(s, o);
      if s.calls[o].pc.Publishing? {
        actions := [Publish(o)];
        assert actions[1..] == [];
      } else {
        var a, b := Finish(o, ending, s.clock), Publish(o);
        actions := [a, b];
        var t := Apply(s, a);
        assert Enabled(t, b);
        assert actions[1..] == [b] && [b][1..] == [];
        var u := Apply(t, b);
        assert Runs(u, []) && After(u, []) == u;
        assert Runs(t, [b]) && After(t, [b]) == u;
      }
    }
  }

  // ------------------------------------------------------------------ what the cache returns

  ghost predicate Produced(s: State, key: Key, checks: Checks) {
    exists o :: o in s.results && o in s.calls && s.calls[o].key == key && s.results[o] == checks
  }

  ghost predicate LatestInv(s: State) {
    forall key <- s.latest :: Produced(s, key, s.latest[key].checks)
  }

  lemma LatestStep(s: State, a: Action)
    requires Inv(s) && LatestInv(s) && Enabled(s, a)
    ensures LatestInv(Apply(s, a))
  {
    var t := Apply(s, a);
    assert Known(s, s.next);
    forall key <- t.latest ensures Produced(t, key, t.latest[key].checks) {
      if a.Finish? && key == s.calls[a.call].key {
        assert t.results[a.call] == t.latest[key].checks;
      } else {
        assert Produced(s, key, s.latest[key].checks);
        var o :| o in s.results && o in s.calls && s.calls[o].key == key && s.results[o] == s.latest[key].checks;
        if a.Finish? { assert CallOk(s, a.call); }
        ResultsStay(s, a, o);
      }
    }
  }

  lemma {:induction false} LatestRun(s: State, actions: seq<Action>)
    requires Inv(s) && LatestInv(s) && Runs(s, actions)
    ensures LatestInv(After(s, actions))
    decreases |actions|
  {
    if actions != [] {
      InvStep(s, actions[0]);
      LatestStep(s, actions[0]);
      LatestRun(Apply(s, actions[0]), actions[1..]);
    }
  }

  lemma HitIsLatest(t: State, key: Key, now: real)
    requires CacheInv(t) && LatestInv(t) && Fresh(t.table, key, now)
    ensures key in t.latest && t.latest[key] == t.table.entries[key]
    ensures Produced(t, key, t.table.entries[key].checks)
  {
  }

  lemma MissIsExcused(t: State, key: Key, now: real)
    requires CacheInv(t) && t.clock <= now && !Fresh(t.table, key, now)
    ensures key in t.latest && t.latest[key].expires > now ==>
        key !in t.recency || Behind(t.recency, key) >= MAX_ENTRIES
  {
  }

  /** A hit is unexpired and is the latest result a probe produced for exactly that key; and a key
      whose latest result is unexpired misses only after a clear, or once 128 other keys were
      completed or hit more recently. */
  lemma CacheRefinesLatest(s: State, actions: seq<Action>, key: Key, now: real)
    requires Initial(s) && Runs(s, actions) && After(s, actions).clock <= now
    ensures var t := After(s, actions);
            var outcome := Lookup(t.table, key, t.next, now).1;
            && (outcome.Hit? ==>
                  && key in t.latest && t.latest[key].checks == outcome.checks && t.latest[key].expires > now
                  && Produced(t, key, outcome.checks))
            && (!outcome.Hit? && key in t.latest && t.latest[key].expires > now ==>
                  key !in t.recency || Behind(t.recency, key) >= MAX_ENTRIES)
  {
    RunInv(s, actions);
    LatestRun(s, actions);
    var t := After(s, actions);
    if Fresh(t.table, key, now) { HitIsLatest(t, key, now); } else { MissIsExcused(t, key, now); }
  }

  // ------------------------------------------------------------------ what becomes of a probe

  lemma KeyStays(s: State, a: Action, c: nat)
    requires Enabled(s, a) && c in s.calls && s.next !in s.calls
    ensures c in Apply(s, a).calls && Apply(s, a).calls[c].key == s.calls[c].key
  {
  }

  lemma {:induction false} CallStays(s: State, actions: seq<Action>, c: nat)
    requires Inv(s) && Runs(s, actions) && c in s.calls
    ensures c in After(s, actions).calls && After(s, actions).calls[c].key == s.calls[c].key
    decreases |actions|
  {
    if actions != [] {
      assert Known(s, s.next);
      KeyStays(s, actions[0], c);
      InvStep(s, actions[0]);
      CallStays(Apply(s, actions[0]), actions[1..], c);
    }
  }

  lemma {:induction false} ResultStays(s: State, actions: seq<Action>, c: nat)
    requires Inv(s) && Runs(s, actions) && c in s.results
    ensures c in After(s, actions).results && After(s, actions).results[c] == s.results[c]
    decreases |actions|
  {
    if actions != [] {
      assert Known(s, c) && Known(s, s.next);
      if actions[0].Finish? { assert CallOk(s, actions[0].call); }
      ResultsStay(s, actions[0], c);
      InvStep(s, actions[0]);
      ResultStays(Apply(s, actions[0]), actions[1..], c);
    }
  }

  /** What the end of a probe has produced is what was observed, and stays so. */
  lemma {:induction false} EndingIsKept(s: State, actions: seq<Action>, i: nat)
    requires Inv(s) && Runs(s, actions) && i < |actions| && actions[i].Finish?
    ensures var t, c, ending := After(s, actions), actions[i].call, actions[i].ending;
      && c in t.results && c in t.calls
      && (ending.Success? ==> t.results[c] == Probed(ending.evidence))
      && (ending.Expiry? ==> t.results[c] == Fallback(ProbeTimeout))
      && (ending.Exception? ==> t.results[c] == Fallback(Execution))
      && (ending.Cancellation? ==> t.results[c] == Fallback(ProbeCancelled))
    decreases |actions|
  {
    var t := Apply(s, actions[0]);
    InvStep(s, actions[0]);
    if i == 0 {
      ResultStays(t, actions[1..], actions[0].call);
      CallStays(t, actions[1..], actions[0].call);
    } else {
      EndingIsKept(t, actions[1..], i - 1);
    }
  }

  lemma ResultAppears(s: State, a: Action, c: nat)
    requires Enabled(s, a) && c in Apply(s, a).results && c !in s.results
    ensures a.Finish? && a.call == c
  {
  }

  /** Whatever was produced for a call came from a step that ended its probe. */
  lemma {:induction false} ResultHasEnding(s: State, actions: seq<Action>, c: nat) returns (i: nat)
    requires Inv(s) && Runs(s, actions) && c in After(s, actions).results && c !in s.results
    ensures i < |actions| && actions[i].Finish? && actions[i].call == c
    decreases |actions|
  {
    var t := Apply(s, actions[0]);
    InvStep(s, actions[0]);
    if c in t.results {
      ResultAppears(s, actions[0], c);
      i := 0;
    } else {
      var j := ResultHasEnding(t, actions[1..], c);
      assert actions[1..][j] == actions[j + 1];
      i := j + 1;
    }
  }

  /** Everyone hears of a probe what became of it, in every run: the checks on record are the evidence
      of a success or the fallback for just that failure; the owner answers with them, or raises if it
      was cancelled, and everyone who waited for it gets the same. */
  lemma ProbeIsReported(s: State, actions: seq<Action>, i: nat)
    requires Initial(s) && Runs(s, actions) && i < |actions| && actions[i].Finish?
    ensures var t, c, ending := After(s, actions), actions[i].call, actions[i].ending;
      && c in t.results && c in t.calls
      && (ending.Success? ==> t.results[c] == Probed(ending.evidence))
      && (ending.Expiry? ==> t.results[c] == Fallback(ProbeTimeout))
      && (ending.Exception? ==> t.results[c] == Fallback(Execution))
      && (ending.Cancellation? ==> t.results[c] == Fallback(ProbeCancelled))
      && (t.calls[c].pc == Publishing(t.results[c], ending.Cancellation?)
          || t.calls[c].pc == if ending.Cancellation? then Cancelled else Answered(t.results[c], ViaProbe))
      && (c in t.futures ==> t.futures[c] == t.results[c])
      && forall d <- t.calls :: t.calls[d].pc.Answered? && t.calls[d].pc.via == ViaWait(c)
           ==> t.calls[d].pc.checks == t.results[c]
  {
    RunInv(s, actions);
    OwnersRun(s, actions);
    EndingIsKept(s, actions, i);
    var t, c := After(s, actions), actions[i].call;
    assert OwnerOk(t, c) && Known(t, c);
    forall d <- t.calls | t.calls[d].pc.Answered? && t.calls[d].pc.via == ViaWait(c)
      ensures t.calls[d].pc.checks == t.results[c]
    {
      assert CallOk(t, d);
    }
  }

  // ------------------------------------------------------------------ hits in a run

  lemma {:induction false} LatestStays(s: State, actions: seq<Action>, key: Key)
    requires Inv(s) && Runs(s, actions) && key in s.latest
    requires forall a <- actions :: a.Finish? && a.call in After(s, actions).calls
               ==> After(s, actions).calls[a.call].key != key
    ensures key in After(s, actions).latest && After(s, actions).latest[key] == s.latest[key]
    decreases |actions|
  {
    if actions != [] {
      InvStep(s, actions[0]);
      assert forall a <- actions[1..] :: a in actions;
      if actions[0].Finish? {
        assert actions[0] in actions;
        CallStays(s, actions, actions[0].call);
      }
      LatestStays(Apply(s, actions[0]), actions[1..], key);
    }
  }

  /** No probe for the same key ended after the i-th step. */
  ghost predicate LastForKey(t: State, actions: seq<Action>, i: nat)
    requires i < |actions| && actions[i].Finish? && actions[i].call in t.calls
  {
    forall a <- actions[i + 1..] :: a.Finish? && a.call in t.calls ==>
      t.calls[a.call].key != t.calls[actions[i].call].key
  }

  lemma FirstEndingIsLatest(s: State, actions: seq<Action>)
    requires Inv(s) && actions != [] && Runs(s, actions) && actions[0].Finish?
    requires actions[0].call in After(s, actions).calls && LastForKey(After(s, actions), actions, 0)
    ensures var t, c := After(s, actions), actions[0].call; var key := t.calls[c].key;
      && key in t.latest && c in t.results && t.latest[key] == Entry(actions[0].now + 15.0, t.results[c])
  {
    var t, c := Apply(s, actions[0]), actions[0].call;
    InvStep(s, actions[0]);
    CallStays(t, actions[1..], c);
    ResultStays(t, actions[1..], c);
    LatestStays(t, actions[1..], t.calls[c].key);
  }

  lemma {:induction false} EndingIsLatest(s: State, actions: seq<Action>, i: nat)
    requires Inv(s) && Runs(s, actions) && i < |actions| && actions[i].Finish?
    requires actions[i].call in After(s, actions).calls && LastForKey(After(s, actions), actions, i)
    ensures var t, c := After(s, actions), actions[i].call; var key := t.calls[c].key;
      && key in t.latest && c in t.results && t.latest[key] == Entry(actions[i].now + 15.0, t.results[c])
    decreases |actions|
  {
    var t := Apply(s, actions[0]);
    InvStep(s, actions[0]);
    if i == 0 {
      FirstEndingIsLatest(s, actions);
    } else {
      assert actions[1..][i..] == actions[i + 1..];
      EndingIsLatest(t, actions[1..], i - 1);
    }
  }

  /** Until the next probe for its key ends, and for 15 seconds, the cache repeats what a probe has
      produced, unless the cache was cleared or 128 other keys were used since. */
  lemma HitRepeatsLastProbe(s: State, actions: seq<Action>, i: nat, now: real)
    requires Initial(s) && Runs(s, actions) && After(s, actions).clock <= now
    requires i < |actions| && actions[i].Finish? && actions[i].call in After(s, actions).calls
    requires LastForKey(After(s, actions), actions, i)
    ensures var t, c := After(s, actions), actions[i].call;
      var key := t.calls[c].key;
      var outcome := Lookup(t.table, key, t.next, now).1;
      && c in t.results
      && (outcome.Hit? ==> outcome.checks == t.results[c] && now < actions[i].now + 15.0)
      && (!outcome.Hit? && now < actions[i].now + 15.0 ==> key !in t.recency || Behind(t.recency, key) >= 128)
  {
    var t := After(s, actions);
    EndingIsLatest(s, actions, i);
    CacheRefinesLatest(s, actions, t.calls[actions[i].call].key, now);
  }

  ghost predicate HitProduced(s: State, d: nat)
    requires d in s.calls
  {
    s.calls[d].pc.Answered? && s.calls[d].pc.via.ViaHit? ==> Produced(s, s.calls[d].key, s.calls[d].pc.checks)
  }

  lemma ProducedStays(s: State, a: Action, key: Key, checks: Checks)
    requires Inv(s) && Enabled(s, a) && Produced(s, key, checks)
    ensures Produced(Apply(s, a), key, checks)
  {
    var o :| o in s.results && o in s.calls && s.calls[o].key == key && s.results[o] == checks;
    assert Known(s, s.next);
    if a.Finish? { assert CallOk(s, a.call); }
    ResultsStay(s, a, o);
  }

  lemma HitStep(s: State, a: Action, d: nat)
    requires Inv(s) && LatestInv(s) && Enabled(s, a) && d in Apply(s, a).calls
    requires d in s.calls ==> HitProduced(s, d)
    ensures HitProduced(Apply(s, a), d)
  {
    assert Known(s, s.next);
    if d !in s.calls {
      if Fresh(s.table, a.key, a.now) {
        HitIsLatest(s, a.key, a.now);
        ProducedStays(s, a, a.key, s.table.entries[a.key].checks);
      }
    } else if s.calls[d].pc.Answered? && s.calls[d].pc.via.ViaHit? {
      ProducedStays(s, a, s.calls[d].key, s.calls[d].pc.checks);
    }
  }

  lemma {:induction false} HitsRun(s: State, actions: seq<Action>)
    requires Inv(s) && LatestInv(s) && Runs(s, actions) && forall d <- s.calls :: HitProduced(s, d)
    ensures forall d <- After(s, actions).calls :: HitProduced(After(s, actions), d)
    decreases |actions|
  {
    if actions != [] {
      InvStep(s, actions[0]);
      LatestStep(s, actions[0]);
      forall d <- Apply(s, actions[0]).calls ensures HitProduced(Apply(s, actions[0]), d) {
        HitStep(s, actions[0], d);
      }
      HitsRun(Apply(s, actions[0]), actions[1..]);
    }
  }

  /** Evidence is never made up: a call answers it only if a probe for that very key succeeded with it. */
  lemma EvidenceWasProbed(s: State, actions: seq<Action>, d: nat, evidence: nat) returns (i: nat)
    requires Initial(s) && Runs(s, actions) && d in After(s, actions).calls
    requires After(s, actions).calls[d].pc.Answered? && After(s, actions).calls[d].pc.checks == Probed(evidence)
    ensures i < |actions| && actions[i].Finish? && actions[i].ending == Success(evidence)
    ensures var t := After(s, actions); actions[i].call in t.calls && t.calls[actions[i].call].key == t.calls[d].key
  {
    var t := After(s, actions);
    RunInv(s, actions);
    HitsRun(s, actions);
    assert CallOk(t, d) && HitProduced(t, d);
    var c := d;
    match t.calls[d].pc.via {
      case ViaHit => c :| c in t.results && c in t.calls && t.calls[c].key == t.calls[d].key
                          && t.results[c] == Probed(evidence);
      case ViaWait(owner) => c := owner;
      case _ =>
    }
    i := ResultHasEnding(s, actions, c);
    EndingIsKept(s, actions, i);
  }

  // ------------------------------------------------------------------ how each call ends

  function Probers(s: State): set<nat> {
    set c | c in s.calls && s.calls[c].pc.Probing?
  }

  /** Different keys have different values. */
  ghost predicate Injective(m: map<Key, nat>) {
    forall k <- m, l <- m :: m[k] == m[l] ==> k == l
  }

  lemma {:induction false} ValuesCount(m: map<Key, nat>)
    requires Injective(m)
    ensures |m.Values| == |m|
    decreases |m|
  {
    if m != map[] {
      var k :| k in m;
      var rest := m - {k};
      assert rest.Keys == m.Keys - {k};
      ValuesCount(rest);
      forall v <- m.Values ensures v in rest.Values + {m[k]} {
        var l :| l in m && m[l] == v;
        if l != k { assert l in rest && rest[l] == v; }
      }
      forall v <- rest.Values ensures v in m.Values {
        var l :| l in rest && rest[l] == v;
        assert l in m;
      }
      assert m.Values == rest.Values + {m[k]} && m[k] !in rest.Values;
    } else {
      assert m.Values == {};
    }
  }

  lemma ProbersCount(s: State)
    requires FlightInv(s)
    ensures |Probers(s)| == |s.table.inflight|
  {
    var m := s.table.inflight;
    forall k <- m ensures FlightOk(s, k) {}
    forall c <- Probers(s) ensures c in m.Values {
      assert CallOk(s, c);
      assert m[s.calls[c].key] == c;
    }
    assert m.Values == Probers(s);
    ValuesCount(m);
  }

  /** What a request meets, in any reachable state: the cache if it has fresh checks for the key, or else
      the one call that probes the key; failing both it is turned away if 128 calls are probing, and
      probes itself if not. */
  lemma RequestMeets(s: State, key: Key, now: real)
    requires Inv(s) && s.clock <= now
    ensures Enabled(s, Request(key, now))
    ensures var t := Apply(s, Request(key, now));
      var hit := key in s.table.entries && s.table.entries[key].expires > now;
      var awaited := exists o :: o in s.calls && s.calls[o] == Call(key, Probing);
      && s.next !in s.calls && s.next in t.calls && t.calls[s.next].key == key
      && var pc := t.calls[s.next].pc;
      && (hit ==> pc == Answered(s.table.entries[key].checks, ViaHit))
      && (!hit && awaited ==> pc.Waiting? && pc.owner in s.calls && s.calls[pc.owner] == Call(key, Probing))
      && (!hit && !awaited && |Probers(s)| >= 128 ==> pc == Answered(Fallback(Capacity), ViaCapacity))
      && (!hit && !awaited && |Probers(s)| < 128 ==> pc == Probing)
  {
    assert Known(s, s.next);
    ProbersCount(s);
    if key in s.table.inflight { assert FlightOk(s, key); }
    if o :| o in s.calls && s.calls[o] == Call(key, Probing) { assert CallOk(s, o); }
  }

  lemma {:induction false} AnswerIsFinal(s: State, actions: seq<Action>, c: nat)
    requires Inv(s) && Runs(s, actions) && c in s.calls && (s.calls[c].pc.Answered? || s.calls[c].pc.Cancelled?)
    ensures c in After(s, actions).calls && After(s, actions).calls[c] == s.calls[c]
    decreases |actions|
  {
    if actions != [] {
      var a := actions[0];
      assert Known(s, s.next);
      OthersUntouched(s, a, c);
      InvStep(s, a);
      AnswerIsFinal(Apply(s, a), actions[1..], c);
    }
  }

  /** How a wait ends in every run: with the checks of the probe awaited, or if it takes too long with the
      fallback for that, or cancelled; and that is final. */
  lemma {:induction false} WaitEnds(s: State, actions: seq<Action>, i: nat)
    requires Inv(s) && Runs(s, actions) && i < |actions|
    requires actions[i].Resolve? || actions[i].GiveUp? || actions[i].CancelWait?
    ensures var t, c := After(s, actions), actions[i].call;
      && c in t.calls
      && (actions[i].Resolve? ==> t.calls[c].pc.Answered? && t.calls[c].pc.via.ViaWait?
                                  && t.calls[c].pc.via.owner in t.results
                                  && t.calls[c].pc.checks == t.results[t.calls[c].pc.via.owner])
      && (actions[i].GiveUp? ==> t.calls[c].pc.Answered? && t.calls[c].pc.checks == Fallback(WaitTimeout))
      && (actions[i].CancelWait? ==> t.calls[c].pc.Cancelled?)
    decreases |actions|
  {
    var t := Apply(s, actions[0]);
    InvStep(s, actions[0]);
    if i == 0 {
      var c := actions[0].call;
      AnswerIsFinal(t, actions[1..], c);
      if actions[0].Resolve? {
        var o := s.calls[c].pc.owner;
        assert Known(s, o);
        ResultStays(s, actions, o);
      }
    } else {
      WaitEnds(t, actions[1..], i - 1);
    }
  }

  /** Clearing is always possible and empties the cache, but touches no probe and no call. */
  lemma ClearForgets(s: State, key: Key, now: real)
    ensures Enabled(s, ClearCache)
    ensures var t := Apply(s, ClearCache);
      && !Fresh(t.table, key, now) && t.table.inflight == s.table.inflight && t.calls == s.calls
      && t.futures == s.futures && t.results == s.results
  {
  }
}
