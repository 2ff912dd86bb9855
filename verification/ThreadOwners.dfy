/** What a missing owner costs thread creation (_lookup_thread_id and _store_thread_id in
    backend/app/channels/manager.py): the failing run of two undisturbed calls. */
module ThreadOwners {
  import opened ThreadRouting
  import opened ThreadCreation

  lemma LoneLock(s: State, c: nat)
    requires c in s.calls && s.calls[c].pc.Missing? && s.locks == map[] && s.held == map[]
    ensures var lock := Lock(s.KeyOf(c), s.next);
      && Runs(s, [Enqueue(c), Acquire(c)])
      && After(s, [Enqueue(c), Acquire(c)]) ==
         s.(calls := s.calls[c := s.calls[c].(pc := Checking(lock))],
            locks := map[s.KeyOf(c) := lock], held := map[lock := c], next := s.next + 1)
  {
    TwoSteps(s, Enqueue(c), Acquire(c));
  }

  lemma LoneCreation(s: State, c: nat, thread: ThreadId)
    requires c in s.calls && s.calls[c].pc.Checking? && s.SlotOf(c) !in s.threads
    ensures Runs(s, [Recheck(c), Create(c, thread)])
    ensures After(s, [Recheck(c), Create(c, thread)]) ==
      s.(calls := s.calls[c := s.calls[c].(pc := Storing(s.calls[c].pc.lock, thread))], made := s.made[c := thread])
  {
    TwoSteps(s, Recheck(c), Create(c, thread));
  }

  lemma LoneStore(s: State, c: nat)
    requires c in s.calls && s.calls[c].pc.Storing?
    requires s.held == map[s.calls[c].pc.lock := c] && s.locks == map[s.KeyOf(c) := s.calls[c].pc.lock]
    ensures Runs(s, [Store(c), Leave(c)])
    ensures After(s, [Store(c), Leave(c)]) ==
      s.(calls := s.calls[c := s.calls[c].(pc := Done(s.calls[c].pc.thread, true))], locks := map[], held := map[],
         threads := s.threads[s.calls[c].route.write := s.calls[c].pc.thread])
  {
    TwoSteps(s, Store(c), Leave(c));
  }

  /** One undisturbed call `c` that creates `thread`. */
  function LoneCall(r: Route, c: nat, thread: ThreadId): seq<Action> {
    [Arrive(r), Lookup(c)] + ([Enqueue(c), Acquire(c)] + ([Recheck(c), Create(c, thread)] + [Store(c), Leave(c)]))
  }

  lemma LoneCallNeverFails(r: Route, c: nat, thread: ThreadId)
    ensures forall a <- LoneCall(r, c, thread) :: !a.Abort? && !a.GiveUp?
  {
  }

  lemma LoneCallRuns(s: State, r: Route, thread: ThreadId)
    requires s.locks == map[] && s.held == map[] && r.read !in s.threads
    ensures Runs(s, LoneCall(r, s.next, thread))
    ensures After(s, LoneCall(r, s.next, thread)) ==
      s.(calls := s.calls[s.next := Call(r, Done(thread, true))], threads := s.threads[r.write := thread],
         made := s.made[s.next := thread], next := s.next + 2)
  {
    var c := s.next;
    LoneMiss(s, r);
    var t := After(s, [Arrive(r), Lookup(c)]);
    LoneLock(t, c);
    var u := After(t, [Enqueue(c), Acquire(c)]);
    LoneCreation(u, c, thread);
    var v := After(u, [Recheck(c), Create(c, thread)]);
    LoneStore(v, c);
    RunsOn(u, [Recheck(c), Create(c, thread)], [Store(c), Leave(c)]);
    RunsOn(t, [Enqueue(c), Acquire(c)], [Recheck(c), Create(c, thread)] + [Store(c), Leave(c)]);
    RunsOn(s, [Arrive(r), Lookup(c)],
        [Enqueue(c), Acquire(c)] + ([Recheck(c), Create(c, thread)] + [Store(c), Leave(c)]));
    LoneResult(s, r, thread, t, u, v, After(v, [Store(c), Leave(c)]));
  }

  lemma LoneResult(s: State, r: Route, thread: ThreadId, t: State, u: State, v: State, w: State)
    requires s.locks == map[] && s.held == map[]
    requires t == s.(calls := s.calls[s.next := Call(r, Missing)], next := s.next + 1)
    requires var lock := Lock(r.key, t.next);
      u == t.(calls := t.calls[s.next := Call(r, Checking(lock))],
              locks := map[r.key := lock], held := map[lock := s.next], next := t.next + 1)
    requires v == u.(calls := u.calls[s.next := Call(r, Storing(Lock(r.key, t.next), thread))],
        made := u.made[s.next := thread])
    requires w == v.(calls := v.calls[s.next := Call(r, Done(thread, true))], locks := map[], held := map[],
                     threads := v.threads[r.write := thread])
    ensures w ==
      s.(calls := s.calls[s.next := Call(r, Done(thread, true))], threads := s.threads[r.write := thread],
         made := s.made[s.next := thread], next := s.next + 2)
  {
  }

  /** Why the owner has to be there: a message with a connection but no owner gets a thread
      that is stored elsewhere than looked up, so the next such message creates another. */
  lemma MissingOwnerDoubles(s: State, m: Message) returns (actions: seq<Action>)
    requires Initial(s) && m.connection != "" && m.owner == ""
    requires ReadSlot(true, m) !in s.threads
    ensures (forall a <- actions :: !a.Abort? && !a.GiveUp?) && Runs(s, actions)
    ensures TwoThreads(After(s, actions), ReadSlot(true, m))
  {
    var r := RouteOf(true, m);
    var first := LoneCall(r, s.next, 0);
    LoneCallRuns(s, r, 0);
    var t := After(s, first);
    var second := LoneCall(r, t.next, 1);
    LoneCallRuns(t, r, 1);
    LoneCallNeverFails(r, s.next, 0);
    LoneCallNeverFails(r, t.next, 1);
    RunsOn(s, first, second);
    actions := first + second;
    var u := After(s, actions);
    assert Creator(u, s.next, r.read) && Creator(u, t.next, r.read);
  }
}
