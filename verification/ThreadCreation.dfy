/** Where a conversation's thread mapping is read, written and locked
    (backend/app/channels/manager.py, _lookup_thread_id, _store_thread_id and
    _thread_create_lock_key). */
module ThreadRouting {
  import opened Options
  import ConversationStore

  /** The routing fields of an inbound message; "" stands for an absent connection or owner. */
  datatype Message = Message(channel: string, chat: string, topic: Option<string>, connection: string, owner: string)

  /** Where a mapping lives: a row of the connection repository or a key of the channel store. */
  datatype Slot =
    | RepoSlot(connection: string, chat: string, topic: Option<string>)
    | StoreSlot(key: string)

  datatype LockKey =
    | ConnectionLock(connection: string, chat: string, topic: Option<string>)
    | ChannelLock(channel: string, chat: string, topic: Option<string>)

  /** Everything thread creation derives from a message. */
  datatype Route = Route(read: Slot, write: Slot, key: LockKey)

  function StoreConversation(m: Message): ConversationStore.Conversation {
    ConversationStore.Conversation(m.channel, m.chat, m.topic)
  }

  function ReadSlot(repo: bool, m: Message): Slot {
    if m.connection != "" && repo then RepoSlot(m.connection, m.chat, m.topic)
    else StoreSlot(ConversationStore.Key(StoreConversation(m)))
  }

  function WriteSlot(repo: bool, m: Message): Slot {
    if m.connection != "" && m.owner != "" && repo then RepoSlot(m.connection, m.chat, m.topic)
    else StoreSlot(ConversationStore.Key(StoreConversation(m)))
  }

  function LockKeyOf(repo: bool, m: Message): LockKey {
    if m.connection != "" && repo then ConnectionLock(m.connection, m.chat, m.topic)
    else ChannelLock(m.channel, m.chat, m.topic)
  }

  function RouteOf(repo: bool, m: Message): Route {
    Route(ReadSlot(repo, m), WriteSlot(repo, m), LockKeyOf(repo, m))
  }

  /** The messages the protocol is written for: an owner comes with every connection, and
      store keys are unambiguous. */
  predicate Routed(repo: bool, m: Message) {
    if m.connection != "" && repo then m.owner != ""
    else ConversationStore.WellNamed(StoreConversation(m))
  }

  /** Threads are stored where they are looked up, and one lock guards each mapping. */
  ghost predicate Coherent(routes: iset<Route>) {
    forall r, q :: r in routes && q in routes ==> r.write == r.read && (r.key == q.key <==> r.read == q.read)
  }

  /** A created thread is stored where the next lookup reads, unless the owner is missing. */
  lemma StoredWhereReadIff(repo: bool, m: Message)
    ensures WriteSlot(repo, m) == ReadSlot(repo, m) <==> !(repo && m.connection != "" && m.owner == "")
    ensures ReadSlot(repo, m) ==
      if repo && m.connection != "" then RepoSlot(m.connection, m.chat, m.topic)
      else
        var named := m.topic.Some? && m.topic.value != "";
        StoreSlot(m.channel + ":" + m.chat + if named then ":" + m.topic.value else "")
  {
    assert m.channel + ":" + m.chat + "" == m.channel + ":" + m.chat;
    if m.topic.Some? {
      assert m.channel + ":" + m.chat + (":" + m.topic.value) == m.channel + ":" + m.chat + ":" + m.topic.value;
    }
  }

  ghost function MessageRoutes(repo: bool): iset<Route> {
    iset m: Message | Routed(repo, m) :: RouteOf(repo, m)
  }

  /** Routed messages contend for one lock exactly when they look up the same mapping. */
  lemma RoutedIsCoherent(repo: bool)
    ensures Coherent(MessageRoutes(repo))
  {
    forall m: Message, n: Message | Routed(repo, m) && Routed(repo, n)
      ensures WriteSlot(repo, m) == ReadSlot(repo, m)
      ensures LockKeyOf(repo, m) == LockKeyOf(repo, n) <==> ReadSlot(repo, m) == ReadSlot(repo, n)
    {
      if ReadSlot(repo, m).StoreSlot? && ReadSlot(repo, m) == ReadSlot(repo, n) {
        ConversationStore.KeyInjective(StoreConversation(m), StoreConversation(n));
      }
    }
  }
}

/** Double-checked thread creation (ChannelManager._get_or_create_thread in
    backend/app/channels/manager.py).

    Every call is a little machine that can be interrupted at each `await`; a run
    is any interleaving of the calls' actions. The lock table is self-cleaning:
    whoever leaves the locked region drops the entry, even if other calls still
    wait on that lock. */
module ThreadCreation {
  import opened ThreadRouting

  type ThreadId = nat

  /** An asyncio lock object; each is created for one key. */
  datatype Lock = Lock(key: LockKey, id: nat)

  /** Program counters; the lock held or awaited and the thread in hand are the locals. */
  datatype Pc =
    | Looking                                                  // before the first lookup
    | Missing                                                  // first lookup found nothing
    | Waiting(lock: Lock)                                      // queued on the lock
    | Checking(lock: Lock)                                     // lock held, before the second lookup
    | Creating(lock: Lock)                                     // lock held, Gateway call under way
    | Storing(lock: Lock, thread: ThreadId)                    // thread exists, mapping not stored yet
    | Leaving(lock: Lock, thread: ThreadId, created: bool)     // about to release and clean up
    | Done(thread: ThreadId, created: bool)
    | Failed
  {
    predicate Inside() { Waiting? || Holds() }

    predicate Holds() { Checking? || Creating? || Storing? || Leaving? }
  }

  datatype Call = Call(route: Route, pc: Pc)

  /** `locks` is the lock table, `held` says which lock objects are taken and by whom,
      `made` which calls got a thread from the Gateway. */
  datatype State = State(
    calls: map<nat, Call>,
    locks: map<LockKey, Lock>,
    held: map<Lock, nat>,
    threads: map<Slot, ThreadId>,
    made: map<nat, ThreadId>,
    next: nat)
  {
    function SlotOf(c: nat): Slot
      requires c in calls
    {
      calls[c].route.read
    }

    function KeyOf(c: nat): LockKey
      requires c in calls
    {
      calls[c].route.key
    }

    predicate InsideAt(c: nat, q: Slot) {
      c in calls && calls[c].pc.Inside() && SlotOf(c) == q
    }
  }

  /** `Abort` is any exception or cancellation inside the locked region (a failed lookup,
      creation or store, a cancelled waiter); `GiveUp` is one before it. */
  datatype Action =
    | Arrive(route: Route)
    | Lookup(call: nat)
    | Enqueue(call: nat)
    | Acquire(call: nat)
    | Recheck(call: nat)
    | Create(call: nat, thread: ThreadId)
    | Store(call: nat)
    | Leave(call: nat)
    | GiveUp(call: nat)
    | Abort(call: nat)

  predicate Enabled(s: State, a: Action) {
    a.Arrive? ||
    (a.call in s.calls &&
     var pc := s.calls[a.call].pc;
     match a
     case Arrive(_) => true
     case Lookup(_) => pc.Looking?
     case Enqueue(_) => pc.Missing?
     case Acquire(_) => pc.Waiting? && pc.lock !in s.held
     case Recheck(_) => pc.Checking?
     case Create(_, _) => pc.Creating?
     case Store(_) => pc.Storing?
     case Leave(_) => pc.Leaving?
     case GiveUp(_) => pc.Looking? || pc.Missing?
     case Abort(_) => pc.Inside())
  }

  function Goto(s: State, c: nat, pc: Pc): State
    requires c in s.calls
  {
    s.(calls := s.calls[c := s.calls[c].(pc := pc)])
  }

  /** Leaving the region: release the lock if held, and let the `finally` clause drop the
      table entry if it still is this call's lock. */
  function Exit(s: State, c: nat, pc: Pc): State
    requires c in s.calls && s.calls[c].pc.Inside()
  {
    var lock := s.calls[c].pc.lock;
    var key := s.KeyOf(c);
    Goto(s, c, pc).(
      held := if s.calls[c].pc.Holds() then s.held - {lock} else s.held,
      locks := if key in s.locks && s.locks[key] == lock then s.locks - {key} else s.locks)
  }

  function Apply(s: State, a: Action): State
    requires Enabled(s, a)
  {
    if a.Arrive? then s.(calls := s.calls[s.next := Call(a.route, Looking)], next := s.next + 1)
    else
      var c := a.call;
      var pc := s.calls[c].pc;
      var q := s.SlotOf(c);
      var key := s.KeyOf(c);
      match a
      case Lookup(_) => Goto(s, c, if q in s.threads then Done(s.threads[q], false) else Missing)
      case Enqueue(_) =>
        if key in s.locks then Goto(s, c, Waiting(s.locks[key]))
        else Goto(s, c, Waiting(Lock(key, s.next))).(locks := s.locks[key := Lock(key, s.next)], next := s.next + 1)
      case Acquire(_) => Goto(s, c, Checking(pc.lock)).(held := s.held[pc.lock := c])
      case Recheck(_) => Goto(s, c, if q in s.threads then Leaving(pc.lock, s.threads[q], false) else Creating(pc.lock))
      case Create(_, thread) => Goto(s, c, Storing(pc.lock, thread)).(made := s.made[c := thread])
      case Store(_) =>
        Goto(s, c, Leaving(pc.lock, pc.thread, true))
        .(threads := s.threads[s.calls[c].route.write := pc.thread])
      case Leave(_) => Exit(s, c, Done(pc.thread, pc.created))
      case GiveUp(_) => Goto(s, c, Failed)
      case Abort(_) => Exit(s, c, Failed)
  }

  predicate Runs(s: State, actions: seq<Action>)
    decreases |actions|
  {
    actions == [] || (Enabled(s, actions[0]) && Runs(Apply(s, actions[0]), actions[1..]))
  }

  function After(s: State, actions: seq<Action>): State
    requires Runs(s, actions)
    decreases |actions|
  {
    if actions == [] then s else After(Apply(s, actions[0]), actions[1..])
  }

  lemma {:induction false} RunsOn(s: State, first: seq<Action>, second: seq<Action>)
    requires Runs(s, first) && Runs(After(s, first), second)
    ensures Runs(s, first + second) && After(s, first + second) == After(After(s, first), second)
    decreases |first|
  {
    if first == [] {
      assert first + second == second;
    } else {
      RunsOn(Apply(s, first[0]), first[1..], second);
      assert (first + second)[1..] == first[1..] + second;
    }
  }

  predicate Initial(s: State) {
    s.calls == map[] && s.locks == map[] && s.held == map[] && s.made == map[]
  }

  /** No exception or cancellation inside the region, and only routes from `routes` arrive. */
  ghost predicate Calm(routes: iset<Route>, actions: seq<Action>) {
    forall a <- actions :: !a.Abort? && (a.Arrive? ==> a.route in routes)
  }

  // ------------------------------------------------------------------ the lock table, in every run

  ghost predicate Referenced(s: State, lock: Lock) {
    exists c :: c in s.calls && s.calls[c].pc.Inside() && s.calls[c].pc.lock == lock
  }

  ghost predicate CallOk(s: State, c: nat)
    requires c in s.calls
  {
    var pc := s.calls[c].pc;
    && c < s.next
    && (pc.Inside() ==> pc.lock.key == s.KeyOf(c) && pc.lock.id < s.next)
    && (pc.Holds() ==> pc.lock in s.held && s.held[pc.lock] == c)
  }

  ghost predicate HeldOk(s: State, lock: Lock)
    requires lock in s.held
  {
    var c := s.held[lock];
    c in s.calls && s.calls[c].pc.Holds() && s.calls[c].pc.lock == lock
  }

  ghost predicate EntryOk(s: State, key: LockKey)
    requires key in s.locks
  {
    s.locks[key].key == key && s.locks[key].id < s.next && Referenced(s, s.locks[key])
  }

  /** Lock discipline; it needs no hypothesis on failures or routing. */
  ghost predicate LockInv(s: State) {
    && (forall c <- s.calls :: CallOk(s, c))
    && (forall lock <- s.held :: HeldOk(s, lock))
    && (forall key <- s.locks :: EntryOk(s, key))
  }

  /** A message of a conversation that has a thread is answered with it at once, without any lock. */
  lemma StoredIsAnswered(s: State, c: nat)
    requires c in s.calls && s.calls[c].pc.Looking?
    ensures Enabled(s, Lookup(c))
    ensures var t, q := Apply(s, Lookup(c)), s.SlotOf(c);
      && t == s.(calls := t.calls) && t.calls.Keys == s.calls.Keys
      && t.calls[c].pc == if q in s.threads then Done(s.threads[q], false) else Missing
  {
  }

  /** A step takes an entry off the lock table exactly if its call leaves the region, or fails in it, and
      the entry is the very lock it came in by. */
  lemma OnlyOwnLockDropped(s: State, a: Action, key: LockKey)
    requires LockInv(s) && Enabled(s, a) && key in s.locks
    ensures key !in Apply(s, a).locks <==> (a.Leave? || a.Abort?) && s.calls[a.call].pc.lock == s.locks[key]
    ensures key in Apply(s, a).locks ==> Apply(s, a).locks[key] == s.locks[key]
  {
    assert EntryOk(s, key);
    if !a.Arrive? { assert CallOk(s, a.call); }
  }

  lemma OwnCallOk(s: State, a: Action)
    requires Enabled(s, a) && !a.Arrive? && CallOk(s, a.call)
    requires s.KeyOf(a.call) in s.locks ==> EntryOk(s, s.KeyOf(a.call))
    ensures a.call in Apply(s, a).calls && CallOk(Apply(s, a), a.call)
  {
  }

  lemma OtherCallOk(s: State, a: Action, c: nat)
    requires Enabled(s, a) && c in Apply(s, a).calls && (a.Arrive? || c != a.call)
    requires c in s.calls ==> CallOk(s, c)
    requires !a.Arrive? ==> CallOk(s, a.call)
    ensures CallOk(Apply(s, a), c)
  {
  }

  lemma CallOkStep(s: State, a: Action, c: nat)
    requires Enabled(s, a) && c in Apply(s, a).calls
    requires c in s.calls ==> CallOk(s, c)
    requires !a.Arrive? ==> CallOk(s, a.call)
    requires !a.Arrive? && s.KeyOf(a.call) in s.locks ==> EntryOk(s, s.KeyOf(a.call))
    ensures CallOk(Apply(s, a), c)
  {
    if !a.Arrive? && c == a.call { OwnCallOk(s, a); } else { OtherCallOk(s, a, c); }
  }

  lemma HeldOkStep(s: State, a: Action, lock: Lock)
    requires Enabled(s, a) && lock in Apply(s, a).held
    requires lock in s.held ==> HeldOk(s, lock)
    requires s.next !in s.calls
    requires !a.Arrive? ==> CallOk(s, a.call)
    ensures HeldOk(Apply(s, a), lock)
  {
  }

  lemma ReferenceStays(s: State, a: Action, key: LockKey, c: nat)
    requires Enabled(s, a) && key in Apply(s, a).locks && key in s.locks
    requires c in s.calls && s.calls[c].pc.Inside() && s.calls[c].pc.lock == s.locks[key]
    requires CallOk(s, c) && s.locks[key].key == key && s.next !in s.calls
    ensures Apply(s, a).locks[key] == s.locks[key]
    ensures c in Apply(s, a).calls && Apply(s, a).calls[c].pc.Inside() && Apply(s, a).calls[c].pc.lock == s.locks[key]
  {
    EntryStays(s, a, key);
    if a.Arrive? || a.call != c { OthersUntouched(s, a, c); }
  }

  lemma EntryStays(s: State, a: Action, key: LockKey)
    requires Enabled(s, a) && key in Apply(s, a).locks && key in s.locks
    ensures Apply(s, a).locks[key] == s.locks[key]
  {
  }

  lemma NewEntryOk(s: State, a: Action, key: LockKey)
    requires Enabled(s, a) && key in Apply(s, a).locks && key !in s.locks
    ensures EntryOk(Apply(s, a), key)
  {
    var t := Apply(s, a);
    assert t.calls[a.call].pc.Inside() && t.calls[a.call].pc.lock == t.locks[key];
  }

  lemma EntryOkStep(s: State, a: Action, key: LockKey)
    requires Enabled(s, a) && key in Apply(s, a).locks && LockInv(s)
    ensures EntryOk(Apply(s, a), key)
  {
    if key in s.locks {
      assert EntryOk(s, key);
      var c :| c in s.calls && s.calls[c].pc.Inside() && s.calls[c].pc.lock == s.locks[key];
      assert CallOk(s, c);
      ReferenceStays(s, a, key, c);
    } else {
      NewEntryOk(s, a, key);
    }
  }

  lemma LockInvStep(s: State, a: Action)
    requires LockInv(s) && Enabled(s, a)
    ensures LockInv(Apply(s, a))
  {
    forall c <- Apply(s, a).calls ensures CallOk(Apply(s, a), c) { CallOkStep(s, a, c); }
    forall lock <- Apply(s, a).held ensures HeldOk(Apply(s, a), lock) { HeldOkStep(s, a, lock); }
    forall key <- Apply(s, a).locks ensures EntryOk(Apply(s, a), key) { EntryOkStep(s, a, key); }
  }

  /** Whatever fails, every lock-table entry belongs to a live call, so a quiet manager holds no lock. */
  lemma {:induction false} NoLockLeaks(s: State, actions: seq<Action>)
    requires LockInv(s) && Runs(s, actions)
    ensures LockInv(After(s, actions))
    ensures (forall c <- After(s, actions).calls :: !After(s, actions).calls[c].pc.Inside()) ==>
              After(s, actions).locks == map[] && After(s, actions).held == map[]
    decreases |actions|
  {
    if actions == [] {
      forall key <- s.locks ensures Referenced(s, s.locks[key]) { assert EntryOk(s, key); }
      forall lock <- s.held ensures HeldOk(s, lock) {}
      assert s.locks != map[] ==> exists key :: key in s.locks;
      assert s.held != map[] ==> exists lock :: lock in s.held;
    } else {
      LockInvStep(s, actions[0]);
      NoLockLeaks(Apply(s, actions[0]), actions[1..]);
    }
  }

  // ------------------------------------------------------------------ who created what, for routed messages

  ghost predicate Creator(s: State, c: nat, q: Slot) {
    c in s.made && c in s.calls && s.SlotOf(c) == q
  }

  ghost predicate SomeCreator(s: State, q: Slot) {
    exists c :: Creator(s, c, q)
  }

  ghost predicate TwoThreads(s: State, q: Slot) {
    exists c, d :: c != d && Creator(s, c, q) && Creator(s, d, q)
  }

  ghost predicate MadeOk(s: State, c: nat, routes: iset<Route>)
    requires c in s.calls
  {
    var pc := s.calls[c].pc;
    && s.calls[c].route in routes
    && (c in s.made ==> pc.Storing? || pc.Leaving? || pc.Done? || pc.Failed?)
    && (pc.Storing? ==> c in s.made)
    && (pc.Leaving? ==> s.SlotOf(c) in s.threads)
  }

  /** A call that creates although something is stored was overtaken by another creator. */
  ghost predicate OvertakenOk(s: State, c: nat)
    requires c in s.calls
  {
    s.calls[c].pc.Creating? && s.SlotOf(c) in s.threads ==> SomeCreator(s, s.SlotOf(c))
  }

  ghost predicate Inv(s: State, routes: iset<Route>) {
    && Coherent(routes)
    && LockInv(s)
    && s.made.Keys <= s.calls.Keys
    && (forall c <- s.calls :: MadeOk(s, c, routes))
    && (forall c <- s.calls :: OvertakenOk(s, c))
  }

  lemma CreatorStays(s: State, a: Action, c: nat, q: Slot)
    requires s.next !in s.calls && Enabled(s, a) && Creator(s, c, q)
    ensures Creator(Apply(s, a), c, q)
  {
  }

  lemma SomeCreatorStep(s: State, a: Action, q: Slot, routes: iset<Route>)
    requires Inv(s, routes) && Enabled(s, a) && q in Apply(s, a).threads
    requires q in s.threads ==> SomeCreator(s, q)
    ensures SomeCreator(Apply(s, a), q)
  {
    if q in s.threads {
      var d :| Creator(s, d, q);
      CreatorStays(s, a, d, q);
    } else {
      CreatorStays(s, a, a.call, q);
    }
  }

  lemma WasCreating(s: State, a: Action, c: nat)
    requires s.next !in s.calls && Enabled(s, a) && c in Apply(s, a).calls && Apply(s, a).calls[c].pc.Creating?
    ensures c in s.calls && s.SlotOf(c) == Apply(s, a).SlotOf(c)
    ensures s.calls[c].pc.Creating? || (a == Recheck(c) && s.SlotOf(c) !in Apply(s, a).threads)
  {
  }

  lemma OvertakenStep(s: State, a: Action, c: nat, routes: iset<Route>)
    requires Inv(s, routes) && Enabled(s, a) && c in Apply(s, a).calls
    ensures OvertakenOk(Apply(s, a), c)
  {
    var t := Apply(s, a);
    if t.calls[c].pc.Creating? && t.SlotOf(c) in t.threads {
      WasCreating(s, a, c);
      assert OvertakenOk(s, c);
      SomeCreatorStep(s, a, s.SlotOf(c), routes);
    }
  }

  lemma OthersUntouched(s: State, a: Action, c: nat)
    requires Enabled(s, a) && s.next !in s.calls && c in s.calls && (a.Arrive? || c != a.call)
    ensures c in Apply(s, a).calls && Apply(s, a).calls[c] == s.calls[c]
    ensures c in Apply(s, a).made <==> c in s.made
    ensures s.threads.Keys <= Apply(s, a).threads.Keys
  {
  }

  lemma OwnMadeOk(s: State, a: Action, routes: iset<Route>)
    requires Enabled(s, a) && !a.Arrive?
    requires MadeOk(s, a.call, routes) && s.calls[a.call].route.write == s.SlotOf(a.call)
    ensures MadeOk(Apply(s, a), a.call, routes)
  {
  }

  lemma MadeOkStep(s: State, a: Action, c: nat, routes: iset<Route>)
    requires Enabled(s, a) && c in Apply(s, a).calls && (a.Arrive? ==> a.route in routes)
    requires s.next !in s.calls && s.made.Keys <= s.calls.Keys
    requires c in s.calls ==> MadeOk(s, c, routes) && s.calls[c].route.write == s.SlotOf(c)
    ensures MadeOk(Apply(s, a), c, routes)
  {
    if c in s.calls {
      if a.Arrive? || c != a.call {
        OthersUntouched(s, a, c);
      } else {
        OwnMadeOk(s, a, routes);
      }
    }
  }

  lemma InvStep(s: State, a: Action, routes: iset<Route>)
    requires Inv(s, routes) && Enabled(s, a) && (a.Arrive? ==> a.route in routes)
    ensures Inv(Apply(s, a), routes)
  {
    LockInvStep(s, a);
    forall c <- Apply(s, a).calls ensures MadeOk(Apply(s, a), c, routes) {
      assert c in s.calls ==> MadeOk(s, c, routes);
      MadeOkStep(s, a, c, routes);
    }
    forall c <- Apply(s, a).calls ensures OvertakenOk(Apply(s, a), c) { OvertakenStep(s, a, c, routes); }
  }

  /** Every state reached by routed calls meets the invariant, whatever fails on the way. */
  lemma {:induction false} ReachableInv(s: State, actions: seq<Action>, routes: iset<Route>)
    requires Inv(s, routes) && Runs(s, actions)
    requires forall a <- actions :: a.Arrive? ==> a.route in routes
    ensures Inv(After(s, actions), routes)
    decreases |actions|
  {
    if actions != [] {
      assert actions[0] in actions;
      InvStep(s, actions[0], routes);
      ReachableInv(Apply(s, actions[0]), actions[1..], routes);
    }
  }

  // ------------------------------------------------------------------ when at most one thread is created

  /** The call waits on, or holds, the lock that newcomers would be given. */
  ghost predicate OnTableLock(s: State, c: nat)
    requires c in s.calls && s.calls[c].pc.Inside()
  {
    s.KeyOf(c) in s.locks && s.locks[s.KeyOf(c)] == s.calls[c].pc.lock
  }

  /** The states from which a calm run cannot end up with two threads for `q`: while nothing is
      stored, all calls inside share the lock in the table and a thread already made is about
      to be stored; once something is stored, nobody is creating. */
  ghost predicate Safe(s: State, q: Slot) {
    && !TwoThreads(s, q)
    && (q in s.threads ==> forall c :: s.InsideAt(c, q) ==> !s.calls[c].pc.Creating?)
    && (q !in s.threads ==> forall c :: s.InsideAt(c, q) ==> OnTableLock(s, c))
    && (q !in s.threads ==> forall c :: Creator(s, c, q) ==> s.calls[c].pc.Storing?)
  }

  lemma OneHolder(s: State, q: Slot, c: nat, d: nat, routes: iset<Route>)
    requires Inv(s, routes) && Safe(s, q) && q !in s.threads
    requires s.InsideAt(c, q) && s.InsideAt(d, q) && s.calls[c].pc.Holds() && s.calls[d].pc.Holds()
    ensures c == d
  {
    assert MadeOk(s, c, routes) && MadeOk(s, d, routes) && CallOk(s, c) && CallOk(s, d);
    assert OnTableLock(s, c) && OnTableLock(s, d);
  }

  lemma StillOneCreator(s: State, a: Action, q: Slot, c: nat, d: nat, routes: iset<Route>)
    requires Inv(s, routes) && Safe(s, q) && Enabled(s, a)
    requires Creator(Apply(s, a), c, q) && Creator(Apply(s, a), d, q)
    requires d in s.made
    ensures c == d
  {
    WasCreator(s, a, d, q, routes);
    if c in s.made {
      WasCreator(s, a, c, q, routes);
    } else {
      assert a == Create(c, a.thread) && MadeOk(s, c, routes) && s.InsideAt(c, q);
      if q !in s.threads { OneHolder(s, q, c, d, routes); }
    }
  }

  lemma WasCreator(s: State, a: Action, c: nat, q: Slot, routes: iset<Route>)
    requires Inv(s, routes) && Enabled(s, a) && c in s.made && Creator(Apply(s, a), c, q)
    ensures Creator(s, c, q) && MadeOk(s, c, routes)
  {
    assert c in s.calls;
    assert CallOk(s, c);
    RouteKept(s, a, c);
  }

  lemma RouteKept(s: State, a: Action, c: nat)
    requires Enabled(s, a) && c in s.calls && s.next !in s.calls
    ensures c in Apply(s, a).calls && Apply(s, a).calls[c].route == s.calls[c].route
  {
  }

  lemma StillOnTableLock(s: State, a: Action, q: Slot, c: nat, routes: iset<Route>)
    requires Enabled(s, a) && !a.Abort? && q !in s.threads && Coherent(routes) && s.next !in s.calls
    requires Apply(s, a).InsideAt(c, q) && c in s.calls && s.calls[c].route in routes
    requires s.InsideAt(c, q) ==> OnTableLock(s, c)
    requires !a.Arrive? ==> MadeOk(s, a.call, routes)
    ensures OnTableLock(Apply(s, a), c)
  {
    if a.Arrive? || a.call != c {
      OthersUntouched(s, a, c);
      TableLockKept(s, a, q, c, routes);
    }
  }

  lemma TableLockKept(s: State, a: Action, q: Slot, c: nat, routes: iset<Route>)
    requires Enabled(s, a) && !a.Abort? && q !in s.threads && Coherent(routes) && s.next !in s.calls
    requires s.InsideAt(c, q) && s.calls[c].route in routes && OnTableLock(s, c)
    requires !a.Arrive? ==> a.call != c && MadeOk(s, a.call, routes)
    ensures var key, locks := s.KeyOf(c), Apply(s, a).locks; key in locks && locks[key] == s.locks[key]
  {
  }

  lemma StillStoring(s: State, a: Action, q: Slot, c: nat, routes: iset<Route>)
    requires Enabled(s, a) && !a.Abort? && q !in Apply(s, a).threads && Coherent(routes) && s.next !in s.calls
    requires Creator(Apply(s, a), c, q) && c in s.calls && MadeOk(s, c, routes)
    requires Creator(s, c, q) ==> s.calls[c].pc.Storing?
    ensures Apply(s, a).calls[c].pc.Storing?
  {
  }

  lemma NotCreating(s: State, a: Action, q: Slot, c: nat, routes: iset<Route>)
    requires Inv(s, routes) && Safe(s, q) && Enabled(s, a)
    requires q in Apply(s, a).threads && Apply(s, a).InsideAt(c, q)
    ensures !Apply(s, a).calls[c].pc.Creating?
  {
    assert s.next !in s.calls by { assert s.next in s.calls ==> CallOk(s, s.next); }
    if Apply(s, a).calls[c].pc.Creating? {
      WasCreating(s, a, c);
      assert s.InsideAt(c, q);
      if q !in s.threads {
        OneHolder(s, q, a.call, c, routes);
      }
    }
  }

  lemma StillNotTwo(s: State, a: Action, q: Slot, routes: iset<Route>)
    requires Inv(s, routes) && Safe(s, q) && Enabled(s, a)
    ensures !TwoThreads(Apply(s, a), q)
  {
    var t := Apply(s, a);
    forall c, d | Creator(t, c, q) && Creator(t, d, q) ensures c == d {
      MadeBefore(s, a, c, d);
      if d in s.made { StillOneCreator(s, a, q, c, d, routes); }
      else if c in s.made { StillOneCreator(s, a, q, d, c, routes); }
    }
  }

  /** A step gives at most one call a thread. */
  lemma MadeBefore(s: State, a: Action, c: nat, d: nat)
    requires Enabled(s, a) && c in Apply(s, a).made && d in Apply(s, a).made
    ensures c in s.made || d in s.made || c == d
  {
  }

  lemma SafeStep(s: State, a: Action, q: Slot, routes: iset<Route>)
    requires Inv(s, routes) && Safe(s, q) && Enabled(s, a) && !a.Abort?
    ensures Safe(Apply(s, a), q)
  {
    var t := Apply(s, a);
    StillNotTwo(s, a, q, routes);
    forall c | q in t.threads && t.InsideAt(c, q) ensures !t.calls[c].pc.Creating? {
      NotCreating(s, a, q, c, routes);
    }
    if q !in t.threads {
      assert !a.Arrive? ==> MadeOk(s, a.call, routes);
      forall c | t.InsideAt(c, q) ensures OnTableLock(t, c) {
        assert MadeOk(s, c, routes);
        StillOnTableLock(s, a, q, c, routes);
      }
      forall c | Creator(t, c, q) ensures t.calls[c].pc.Storing? {
        assert c in s.calls && MadeOk(s, c, routes);
        StillStoring(s, a, q, c, routes);
      }
    }
  }

  lemma {:induction false} SafeRun(s: State, actions: seq<Action>, q: Slot, routes: iset<Route>)
    requires Inv(s, routes) && Safe(s, q) && Runs(s, actions) && Calm(routes, actions)
    ensures Inv(After(s, actions), routes) && Safe(After(s, actions), q)
    decreases |actions|
  {
    if actions != [] {
      var a := actions[0];
      assert a in actions;
      InvStep(s, a, routes);
      SafeStep(s, a, q, routes);
      SafeRun(Apply(s, a), actions[1..], q, routes);
    }
  }

  // ------------------------------------------------------------------ what the callers get

  /** Each call of `q` that has an answer has the stored thread, and says "created" iff it made it. */
  ghost predicate AnswerOk(s: State, c: nat)
    requires c in s.calls
  {
    var pc := s.calls[c].pc;
    var q := s.SlotOf(c);
    && (pc.Leaving? || pc.Done? ==> q in s.threads && s.threads[q] == pc.thread && (pc.created <==> c in s.made))
    && (q in s.threads ==> !pc.Storing?)
    && (c in s.made ==> !pc.Failed?)
  }

  ghost predicate Answers(s: State, before: map<Slot, ThreadId>, q: Slot) {
    && (forall c <- s.calls :: s.SlotOf(c) == q ==> AnswerOk(s, c))
    && (q in before ==> q in s.threads && s.threads[q] == before[q] && !SomeCreator(s, q))
    && (q in s.threads && q !in before ==> SomeCreator(s, q))
  }

  lemma AnswerOtherStep(s: State, a: Action, c: nat, q: Slot, routes: iset<Route>)
    requires Inv(s, routes) && Safe(s, q) && Enabled(s, a) && !a.Abort?
    requires c in s.calls && s.SlotOf(c) == q && AnswerOk(s, c) && (a.Arrive? || c != a.call)
    requires !a.Arrive? && s.SlotOf(a.call) == q ==> AnswerOk(s, a.call)
    ensures c in Apply(s, a).calls && AnswerOk(Apply(s, a), c)
  {
    OthersUntouched(s, a, c);
    if a.Store? {
      assert MadeOk(s, a.call, routes);
      if s.SlotOf(a.call) == q && s.calls[c].pc.Storing? {
        OneHolder(s, q, a.call, c, routes);
      }
    }
  }

  lemma AnswerOwnStep(s: State, a: Action, routes: iset<Route>)
    requires Inv(s, routes) && Enabled(s, a) && !a.Arrive? && !a.Abort?
    requires Safe(s, s.SlotOf(a.call)) && AnswerOk(s, a.call)
    ensures a.call in Apply(s, a).calls && AnswerOk(Apply(s, a), a.call)
  {
    assert MadeOk(s, a.call, routes);
    assert a.Create? ==> s.InsideAt(a.call, s.SlotOf(a.call));
  }

  lemma AnswerStep(s: State, a: Action, c: nat, q: Slot, routes: iset<Route>)
    requires Inv(s, routes) && Safe(s, q) && Enabled(s, a) && !a.Abort?
    requires forall d <- s.calls :: s.SlotOf(d) == q ==> AnswerOk(s, d)
    requires c in s.calls && s.SlotOf(c) == q
    ensures c in Apply(s, a).calls && AnswerOk(Apply(s, a), c)
  {
    if a.Arrive? || c != a.call { AnswerOtherStep(s, a, c, q, routes); } else { AnswerOwnStep(s, a, routes); }
  }

  lemma ArrivalOk(s: State, a: Action, c: nat, routes: iset<Route>)
    requires Inv(s, routes) && Enabled(s, a) && c in Apply(s, a).calls && c !in s.calls
    ensures AnswerOk(Apply(s, a), c)
  {
    assert c !in s.made;
  }

  lemma AnswersStep(s: State, a: Action, before: map<Slot, ThreadId>, q: Slot, routes: iset<Route>)
    requires Inv(s, routes) && Safe(s, q) && Enabled(s, a) && !a.Abort? && Answers(s, before, q)
    ensures Answers(Apply(s, a), before, q)
  {
    forall c <- Apply(s, a).calls | Apply(s, a).SlotOf(c) == q ensures AnswerOk(Apply(s, a), c) {
      if c in s.calls {
        RouteKept(s, a, c);
        AnswerStep(s, a, c, q, routes);
      } else {
        ArrivalOk(s, a, c, routes);
      }
    }
    if q in before {
      StoredStays(s, a, q, routes);
    } else if q in Apply(s, a).threads {
      SomeCreatorStep(s, a, q, routes);
    }
  }

  lemma StoredStays(s: State, a: Action, q: Slot, routes: iset<Route>)
    requires Inv(s, routes) && Safe(s, q) && Enabled(s, a) && !a.Abort? && q in s.threads && !SomeCreator(s, q)
    requires forall c <- s.calls :: s.SlotOf(c) == q ==> AnswerOk(s, c)
    ensures q in Apply(s, a).threads && Apply(s, a).threads[q] == s.threads[q] && !SomeCreator(Apply(s, a), q)
  {
    forall c ensures !Creator(Apply(s, a), c, q) { StillNoCreator(s, a, q, c); }
  }

  lemma StillNoCreator(s: State, a: Action, q: Slot, c: nat)
    requires Enabled(s, a) && s.next !in s.calls && q in s.threads && Safe(s, q) && !Creator(s, c, q)
    requires c in s.made ==> c in s.calls
    ensures !Creator(Apply(s, a), c, q)
  {
    if c in s.calls {
      RouteKept(s, a, c);
      assert s.InsideAt(c, q) ==> !s.calls[c].pc.Creating?;
    }
  }

  lemma {:induction false} AnswersRun(s: State, actions: seq<Action>, before: map<Slot, ThreadId>, q: Slot,
        routes: iset<Route>)
    requires Inv(s, routes) && Safe(s, q) && Answers(s, before, q) && Runs(s, actions) && Calm(routes, actions)
    ensures Safe(After(s, actions), q) && Answers(After(s, actions), before, q)
    decreases |actions|
  {
    if actions != [] {
      var a := actions[0];
      assert a in actions;
      InvStep(s, a, routes);
      SafeStep(s, a, q, routes);
      AnswersStep(s, a, before, q, routes);
      AnswersRun(Apply(s, a), actions[1..], before, q, routes);
    }
  }

  ghost predicate Reports(s: State, c: nat, q: Slot, thread: ThreadId, created: bool) {
    c in s.calls && s.SlotOf(c) == q && s.calls[c].pc == Done(thread, created)
  }

  /** All calls for a conversation have an answer or have failed. */
  ghost predicate Settled(t: State, q: Slot) {
    forall c :: c in t.calls && t.SlotOf(c) == q ==> t.calls[c].pc.Done? || t.calls[c].pc.Failed?
  }

  /** Between s and t at most one thread was created for q, all answers agree, a stored thread was not
      replaced, and if there was none and the calls have settled, exactly one reports the creation. */
  ghost predicate OneThread(s: State, t: State, q: Slot) {
    && !TwoThreads(t, q)
    && (forall c, d, x, y, m, n ::
          Reports(t, c, q, x, m) && Reports(t, d, q, y, n) ==> x == y && (m && n ==> c == d))
    && (q in s.threads ==> forall c, x, m :: Reports(t, c, q, x, m) ==> x == s.threads[q] && !m)
    && (q !in s.threads && Settled(t, q) ==>
          forall c, x, m :: Reports(t, c, q, x, m) ==> exists d :: Reports(t, d, q, x, true))
  }

  /** The main result. Take any set of routes that store where they look up and contend for a lock
      exactly if they look up the same mapping, and any interleaving of calls for them in which
      nothing fails inside the region: each conversation gets one thread. */
  lemma AtMostOneThread(routes: iset<Route>, s: State, actions: seq<Action>, q: Slot)
    requires Coherent(routes) && Initial(s) && Runs(s, actions) && Calm(routes, actions)
    ensures OneThread(s, After(s, actions), q)
  {
    assert Inv(s, routes) && Safe(s, q) && Answers(s, s.threads, q);
    AnswersRun(s, actions, s.threads, q, routes);
    var t := After(s, actions);
    forall c, d, x, y, m, n | Reports(t, c, q, x, m) && Reports(t, d, q, y, n)
      ensures x == y && (m && n ==> c == d)
    {
      assert AnswerOk(t, c) && AnswerOk(t, d);
      if m && n { assert Creator(t, c, q) && Creator(t, d, q); }
    }
    forall c, x, m | Reports(t, c, q, x, m)
      ensures q in s.threads ==> x == s.threads[q] && !m
      ensures q !in s.threads && Settled(t, q) ==> exists d :: Reports(t, d, q, x, true)
    {
      assert AnswerOk(t, c);
      if q in s.threads {
        if m { assert Creator(t, c, q); }
      } else {
        var d :| Creator(t, d, q);
        assert AnswerOk(t, d);
        if Settled(t, q) {
          assert Reports(t, d, q, x, true);
        }
      }
    }
  }

  /** In particular for all routed messages of a manager, with or without a connection repository. */
  lemma RoutedMessagesGetOneThread(repo: bool, s: State, actions: seq<Action>, q: Slot)
    requires Initial(s) && Runs(s, actions) && Calm(MessageRoutes(repo), actions)
    ensures OneThread(s, After(s, actions), q)
  {
    RoutedIsCoherent(repo);
    AtMostOneThread(MessageRoutes(repo), s, actions, q);
  }

  // ------------------------------------------------------------------ and when two can be created

  ghost predicate Doubles(s: State, actions: seq<Action>, q: Slot, routes: iset<Route>) {
    Runs(s, actions) && Calm(routes, actions) && TwoThreads(After(s, actions), q)
  }

  /** The exact condition: from a reachable state, some calm continuation creates two threads for
      one conversation if and only if the state is not safe for it. */
  lemma TwoThreadsIffUnsafe(s: State, q: Slot, routes: iset<Route>)
    requires Inv(s, routes)
    ensures (exists actions :: Doubles(s, actions, q, routes)) <==> !Safe(s, q)
  {
    if Safe(s, q) {
      forall actions | Runs(s, actions) && Calm(routes, actions) ensures !TwoThreads(After(s, actions), q) {
        SafeRun(s, actions, q, routes);
      }
    } else {
      var actions := UnsafeDoubles(s, q, routes);
    }
  }

  /** What an exception or cancellation inside the region costs: a safe state stays safe exactly
      when the thread is already stored, or nobody else is inside and no thread was made. */
  lemma AbortSafeIff(s: State, c: nat, q: Slot, routes: iset<Route>)
    requires Inv(s, routes) && Safe(s, q) && s.InsideAt(c, q)
    ensures Safe(Apply(s, Abort(c)), q) <==>
              q in s.threads || (!s.calls[c].pc.Storing? && forall d :: s.InsideAt(d, q) ==> d == c)
  {
    if q in s.threads {
      AbortWhenStored(s, c, q, routes);
    } else if s.calls[c].pc.Storing? {
      assert MadeOk(s, c, routes);
      assert Creator(Apply(s, Abort(c)), c, q);
    } else if d :| s.InsideAt(d, q) && d != c {
      AbortStrands(s, c, d, q, routes);
    } else {
      AbortAlone(s, c, q, routes);
    }
  }

  /** The failing run: two calls for one new conversation are queued, one waiter is cancelled,
      and although nothing else goes wrong two threads get created. */
  lemma OneCancelDoubles(s: State, r: Route, routes: iset<Route>)
      returns (before: seq<Action>, c: nat, rest: seq<Action>)
    requires Initial(s) && Coherent(routes) && r in routes && r.read !in s.threads
    ensures Calm(routes, before) && Calm(routes, rest) && Runs(s, before + [Abort(c)] + rest)
    ensures TwoThreads(After(s, before + [Abort(c)] + rest), r.read)
  {
    var m;
    before, m, c := QueueTwo(s, r, routes);
    var t := After(s, before);
    AbortSafeIff(t, c, r.read, routes);
    InvStep(t, Abort(c), routes);
    rest := UnsafeDoubles(Apply(t, Abort(c)), r.read, routes);
    AbortBetween(s, before, c, rest);
  }

  // ------------------------------------------------------------------ driving calls to a second thread

  /** `d` has a thread in hand for `q` under `lock`, and nothing else was touched since `s`. */
  ghost predicate Driven(s: State, t: State, d: nat, lock: Lock, q: Slot) {
    && t == s.(calls := t.calls, held := t.held, made := t.made)
    && t.calls.Keys == s.calls.Keys && s.made.Keys <= t.made.Keys
    && (forall c <- s.calls :: t.calls[c].route == s.calls[c].route && (c != d ==> t.calls[c] == s.calls[c]))
    && s.InsideAt(d, q) && s.calls[d].pc.lock == lock
    && t.calls[d].pc.Storing? && t.calls[d].pc.lock == lock
    && Creator(t, d, q) && (d in s.made ==> s.calls[d].pc.Storing?)
  }

  /** Prepends a step of `d` itself to a drive. */
  lemma DrivenAfterStep(s: State, a: Action, rest: seq<Action>, d: nat, lock: Lock, q: Slot, routes: iset<Route>)
    requires Enabled(s, a) && !a.Arrive? && a.call == d && (a.Acquire? || a.Recheck?) && q !in s.threads
    requires s.InsideAt(d, q) && s.calls[d].pc.lock == lock && MadeOk(s, d, routes)
    requires Runs(Apply(s, a), rest) && Calm(routes, rest) && Driven(Apply(s, a), After(Apply(s, a), rest), d, lock, q)
    ensures Runs(s, [a] + rest) && Calm(routes, [a] + rest) && After(s, [a] + rest) == After(Apply(s, a), rest)
    ensures Driven(s, After(s, [a] + rest), d, lock, q)
  {
    assert ([a] + rest)[1..] == rest;
  }

  lemma CreateDrives(s: State, d: nat, q: Slot)
    requires s.InsideAt(d, q) && s.calls[d].pc.Creating? && d !in s.made
    ensures Driven(s, Apply(s, Create(d, 0)), d, s.calls[d].pc.lock, q)
  {
  }

  lemma DriveCreator(s: State, d: nat, q: Slot, routes: iset<Route>) returns (actions: seq<Action>)
    requires Inv(s, routes) && q !in s.threads && s.InsideAt(d, q)
        && (s.calls[d].pc.Creating? || s.calls[d].pc.Storing?)
    ensures Runs(s, actions) && Calm(routes, actions) && Inv(After(s, actions), routes)
    ensures Driven(s, After(s, actions), d, s.calls[d].pc.lock, q)
  {
    assert MadeOk(s, d, routes);
    if s.calls[d].pc.Storing? {
      actions := [];
    } else {
      InvStep(s, Create(d, 0), routes);
      CreateDrives(s, d, q);
      OneStep(s, Create(d, 0));
      actions := [Create(d, 0)];
    }
  }

  lemma DriveHolder(s: State, d: nat, q: Slot, routes: iset<Route>) returns (actions: seq<Action>)
    requires Inv(s, routes) && q !in s.threads && s.InsideAt(d, q) && s.calls[d].pc.Holds()
    ensures Runs(s, actions) && Calm(routes, actions) && Inv(After(s, actions), routes)
    ensures Driven(s, After(s, actions), d, s.calls[d].pc.lock, q)
  {
    assert MadeOk(s, d, routes);
    if s.calls[d].pc.Checking? {
      InvStep(s, Recheck(d), routes);
      var rest := DriveCreator(Apply(s, Recheck(d)), d, q, routes);
      DrivenAfterStep(s, Recheck(d), rest, d, s.calls[d].pc.lock, q, routes);
      actions := [Recheck(d)] + rest;
    } else {
      actions := DriveCreator(s, d, q, routes);
    }
  }

  lemma HolderOf(s: State, c: nat, q: Slot, routes: iset<Route>)
    requires Inv(s, routes) && s.InsideAt(c, q) && s.calls[c].pc.lock in s.held
    ensures var d := s.held[s.calls[c].pc.lock];
            s.InsideAt(d, q) && s.calls[d].pc.Holds() && s.calls[d].pc.lock == s.calls[c].pc.lock
  {
    var lock := s.calls[c].pc.lock;
    assert CallOk(s, c) && MadeOk(s, c, routes) && HeldOk(s, lock);
    assert CallOk(s, s.held[lock]) && MadeOk(s, s.held[lock], routes);
  }

  /** Under any lock with a user, some call can be brought to have a thread in hand. */
  lemma Drive(s: State, c: nat, q: Slot, routes: iset<Route>) returns (actions: seq<Action>, d: nat)
    requires Inv(s, routes) && q !in s.threads && s.InsideAt(c, q)
    ensures Runs(s, actions) && Calm(routes, actions) && Inv(After(s, actions), routes)
    ensures Driven(s, After(s, actions), d, s.calls[c].pc.lock, q)
  {
    var lock := s.calls[c].pc.lock;
    if lock in s.held {
      HolderOf(s, c, q, routes);
      d := s.held[lock];
      actions := DriveHolder(s, d, q, routes);
    } else {
      d := c;
      assert CallOk(s, c) && MadeOk(s, c, routes);
      InvStep(s, Acquire(c), routes);
      var rest := DriveHolder(Apply(s, Acquire(c)), c, q, routes);
      DrivenAfterStep(s, Acquire(c), rest, c, lock, q, routes);
      actions := [Acquire(c)] + rest;
    }
  }

  lemma JoinCalm(routes: iset<Route>, first: seq<Action>, second: seq<Action>)
    requires Calm(routes, first) && Calm(routes, second)
    ensures Calm(routes, first + second)
  {
  }

  /** Two calls on different locks, nothing stored: both can create. */
  lemma TwoLocksDouble(s: State, c: nat, e: nat, q: Slot, routes: iset<Route>) returns (actions: seq<Action>)
    requires Inv(s, routes) && q !in s.threads && s.InsideAt(c, q) && s.InsideAt(e, q)
    requires s.calls[c].pc.lock != s.calls[e].pc.lock
    ensures Doubles(s, actions, q, routes)
  {
    var first, d := Drive(s, c, q, routes);
    var t := After(s, first);
    assert t.calls[e] == s.calls[e];
    var second, f := Drive(t, e, q, routes);
    RunsOn(s, first, second);
    JoinCalm(routes, first, second);
    actions := first + second;
    assert Creator(After(t, second), d, q) && Creator(After(t, second), f, q);
  }

  /** A newcomer for `q` walks up to the lock the table gives out. */
  lemma Newcomer(s: State, r: Route, routes: iset<Route>) returns (actions: seq<Action>, n: nat)
    requires Inv(s, routes) && r in routes && r.read !in s.threads
    ensures Runs(s, actions) && Calm(routes, actions) && Inv(After(s, actions), routes)
    ensures var t := After(s, actions);
            && n !in s.calls && t.InsideAt(n, r.read) && t.threads == s.threads && t.made == s.made
            && (forall c <- s.calls :: c in t.calls && t.calls[c] == s.calls[c])
            && t.calls[n].pc.lock == if r.key in s.locks then s.locks[r.key] else Lock(r.key, s.next + 1)
  {
    n := s.next;
    actions := [Arrive(r), Lookup(n)] + [Enqueue(n)];
    NewcomerRuns(s, r);
    NewcomerWaits(s, r);
    NewcomerIsCalm(r, n, routes);
    ReachableInv(s, actions, routes);
  }

  lemma NewcomerRuns(s: State, r: Route)
    requires r.read !in s.threads
    ensures var n := s.next;
      && Runs(s, [Arrive(r), Lookup(n)])
      && After(s, [Arrive(r), Lookup(n)]) == s.(calls := s.calls[n := Call(r, Missing)], next := n + 1)
      && Enabled(After(s, [Arrive(r), Lookup(n)]), Enqueue(n))
      && Runs(s, [Arrive(r), Lookup(n)] + [Enqueue(n)])
      && After(s, [Arrive(r), Lookup(n)] + [Enqueue(n)]) == Apply(After(s, [Arrive(r), Lookup(n)]), Enqueue(n))
  {
    LoneMiss(s, r);
    OneStep(After(s, [Arrive(r), Lookup(s.next)]), Enqueue(s.next));
    RunsOn(s, [Arrive(r), Lookup(s.next)], [Enqueue(s.next)]);
  }

  lemma NewcomerIsCalm(r: Route, n: nat, routes: iset<Route>)
    requires r in routes
    ensures Calm(routes, [Arrive(r), Lookup(n)] + [Enqueue(n)])
  {
  }

  lemma NewcomerWaits(s: State, r: Route)
    requires r.read !in s.threads && s.next !in s.calls
    ensures var n := s.next;
      var missed := s.(calls := s.calls[n := Call(r, Missing)], next := n + 1);
      var t := Apply(missed, Enqueue(n));
      && t.InsideAt(n, r.read) && t.threads == s.threads && t.made == s.made
      && (forall c <- s.calls :: c in t.calls && t.calls[c] == s.calls[c])
      && t.calls[n].pc.lock == if r.key in s.locks then s.locks[r.key] else Lock(r.key, s.next + 1)
  {
  }

  lemma OneStep(s: State, a: Action)
    requires Enabled(s, a)
    ensures Runs(s, [a]) && After(s, [a]) == Apply(s, a)
  {
    assert [a][1..] == [];
    assert Runs(Apply(s, a), []) && After(Apply(s, a), []) == Apply(s, a);
  }

  /** A call on a lock that newcomers no longer get is overtaken by one. */
  lemma StrandedDoubles(s: State, c: nat, q: Slot, routes: iset<Route>) returns (actions: seq<Action>)
    requires Inv(s, routes) && q !in s.threads && s.InsideAt(c, q) && !OnTableLock(s, c)
    ensures Doubles(s, actions, q, routes)
  {
    assert CallOk(s, c) && MadeOk(s, c, routes);
    var first, n := Newcomer(s, s.calls[c].route, routes);
    var t := After(s, first);
    var second := TwoLocksDouble(t, c, n, q, routes);
    RunsOn(s, first, second);
    JoinCalm(routes, first, second);
    actions := first + second;
  }

  /** A thread made by a call that is gone, or past storing elsewhere, is made again by a newcomer. */
  lemma OrphanDoubles(s: State, c: nat, q: Slot, routes: iset<Route>) returns (actions: seq<Action>)
    requires Inv(s, routes) && q !in s.threads && Creator(s, c, q) && !s.calls[c].pc.Storing?
    ensures Doubles(s, actions, q, routes)
  {
    assert MadeOk(s, c, routes);
    var first, n := Newcomer(s, s.calls[c].route, routes);
    var t := After(s, first);
    var second, d := Drive(t, n, q, routes);
    RunsOn(s, first, second);
    JoinCalm(routes, first, second);
    actions := first + second;
    assert Creator(After(t, second), c, q) && Creator(After(t, second), d, q) && c != d;
  }

  /** A call that creates although a thread is stored makes the second one. */
  lemma OvertakenDoubles(s: State, c: nat, q: Slot, routes: iset<Route>)
    requires Inv(s, routes) && q in s.threads && s.InsideAt(c, q) && s.calls[c].pc.Creating?
    ensures Doubles(s, [Create(c, 0)], q, routes)
  {
    assert OvertakenOk(s, c) && MadeOk(s, c, routes);
    var d :| Creator(s, d, q);
    OneStep(s, Create(c, 0));
    var t := Apply(s, Create(c, 0));
    assert Creator(t, c, q) && Creator(t, d, q);
  }

  lemma UnsafeDoubles(s: State, q: Slot, routes: iset<Route>) returns (actions: seq<Action>)
    requires Inv(s, routes) && !Safe(s, q)
    ensures Doubles(s, actions, q, routes)
  {
    if TwoThreads(s, q) {
      actions := [];
    } else if q in s.threads {
      var c :| s.InsideAt(c, q) && s.calls[c].pc.Creating?;
      OvertakenDoubles(s, c, q, routes);
      actions := [Create(c, 0)];
    } else if c :| s.InsideAt(c, q) && !OnTableLock(s, c) {
      actions := StrandedDoubles(s, c, q, routes);
    } else {
      var c :| Creator(s, c, q) && !s.calls[c].pc.Storing?;
      actions := OrphanDoubles(s, c, q, routes);
    }
  }

  lemma AbortFrame(s: State, c: nat, d: nat, q: Slot)
    requires Enabled(s, Abort(c)) && d != c
    ensures Apply(s, Abort(c)).InsideAt(d, q) <==> s.InsideAt(d, q)
    ensures d in s.calls ==> Apply(s, Abort(c)).calls[d] == s.calls[d]
  {
  }

  lemma AbortKeepsCreators(s: State, c: nat, q: Slot)
    requires Enabled(s, Abort(c)) && !TwoThreads(s, q)
    ensures forall d :: Creator(Apply(s, Abort(c)), d, q) <==> Creator(s, d, q)
    ensures !TwoThreads(Apply(s, Abort(c)), q)
  {
    var t := Apply(s, Abort(c));
    assert forall d :: Creator(t, d, q) <==> Creator(s, d, q);
  }

  lemma AbortWhenStored(s: State, c: nat, q: Slot, routes: iset<Route>)
    requires Inv(s, routes) && Safe(s, q) && s.InsideAt(c, q) && q in s.threads
    ensures Safe(Apply(s, Abort(c)), q)
  {
    var t := Apply(s, Abort(c));
    AbortKeepsCreators(s, c, q);
    forall d | t.InsideAt(d, q) ensures !t.calls[d].pc.Creating? {
      AbortFrame(s, c, d, q);
    }
  }

  lemma AbortStrands(s: State, c: nat, d: nat, q: Slot, routes: iset<Route>)
    requires Inv(s, routes) && Safe(s, q) && s.InsideAt(c, q) && s.InsideAt(d, q) && c != d && q !in s.threads
    ensures !Safe(Apply(s, Abort(c)), q)
  {
    AbortFrame(s, c, d, q);
    assert OnTableLock(s, c) && MadeOk(s, c, routes) && MadeOk(s, d, routes);
    assert !OnTableLock(Apply(s, Abort(c)), d);
  }

  lemma AbortAlone(s: State, c: nat, q: Slot, routes: iset<Route>)
    requires Inv(s, routes) && Safe(s, q) && s.InsideAt(c, q) && !s.calls[c].pc.Storing?
    requires q !in s.threads && forall d :: s.InsideAt(d, q) ==> d == c
    ensures Safe(Apply(s, Abort(c)), q)
  {
    var t := Apply(s, Abort(c));
    AbortKeepsCreators(s, c, q);
    forall d ensures !t.InsideAt(d, q) { if d != c { AbortFrame(s, c, d, q); } }
    forall d | Creator(t, d, q) ensures t.calls[d].pc.Storing? {
      assert Creator(s, d, q) && d != c;
      AbortFrame(s, c, d, q);
    }
  }

  lemma QueueTwo(s: State, r: Route, routes: iset<Route>) returns (actions: seq<Action>, m: nat, n: nat)
    requires Inv(s, routes) && Safe(s, r.read) && r in routes && r.read !in s.threads
    ensures Runs(s, actions) && Calm(routes, actions)
    ensures var t := After(s, actions);
            && Inv(t, routes) && Safe(t, r.read) && r.read !in t.threads
            && m != n && t.InsideAt(m, r.read) && t.InsideAt(n, r.read)
  {
    var one, m' := Newcomer(s, r, routes);
    var s1 := After(s, one);
    var two, n' := Newcomer(s1, r, routes);
    RunsOn(s, one, two);
    JoinCalm(routes, one, two);
    actions, m, n := one + two, m', n';
    SafeRun(s, actions, r.read, routes);
  }

  lemma AbortBetween(s: State, before: seq<Action>, c: nat, rest: seq<Action>)
    requires Runs(s, before) && Enabled(After(s, before), Abort(c)) && Runs(Apply(After(s, before), Abort(c)), rest)
    ensures Runs(s, before + [Abort(c)] + rest)
    ensures After(s, before + [Abort(c)] + rest) == After(Apply(After(s, before), Abort(c)), rest)
  {
    assert ([Abort(c)] + rest)[1..] == rest;
    RunsOn(s, before, [Abort(c)] + rest);
    assert before + ([Abort(c)] + rest) == before + [Abort(c)] + rest;
  }

  lemma TwoSteps(s: State, a: Action, b: Action)
    requires Enabled(s, a) && Enabled(Apply(s, a), b)
    ensures Runs(s, [a, b]) && After(s, [a, b]) == Apply(Apply(s, a), b)
  {
    var t := Apply(Apply(s, a), b);
    assert Runs(t, []) && After(t, []) == t;
    assert [a, b][1..] == [b] && [b][1..] == [];
    assert Runs(Apply(s, a), [b]);
  }

  lemma LoneMiss(s: State, r: Route)
    requires r.read !in s.threads
    ensures var c := s.next;
      && Runs(s, [Arrive(r), Lookup(c)])
      && After(s, [Arrive(r), Lookup(c)]) == s.(calls := s.calls[c := Call(r, Missing)], next := c + 1)
  {
    var c := s.next;
    var looking := s.(calls := s.calls[c := Call(r, Looking)], next := c + 1);
    assert Apply(s, Arrive(r)) == looking;
    assert looking.calls[c := Call(r, Missing)] == s.calls[c := Call(r, Missing)];
    TwoSteps(s, Arrive(r), Lookup(c));
  }
}
