/** When a channel runs twice (ChannelService.ensure_channel_ready, _start_channel and stop in
    backend/app/channels/service.py): the exact condition on a single step. */
module ChannelDoubling {
  import opened ChannelLifecycle

  /** Two instances of one channel run. */
  ghost predicate Doubled(s: State) {
    exists i, j :: i != j && i in s.live && j in s.live && SameName(s, i, j)
  }

  ghost predicate SameName(s: State, i: nat, j: nat) {
    i in s.names && j in s.names && s.names[i] == s.names[j]
  }

  /** Some stop is going to close the instance. */
  ghost predicate Held(s: State, i: nat) {
    exists x <- s.stops :: s.stops[x].Closing? && i in s.stops[x].rest
  }

  ghost predicate HeldElsewhere(s: State, x: nat, i: nat) {
    exists y <- s.stops :: y != x && s.stops[y].Closing? && i in s.stops[y].rest
  }

  ghost predicate SomeClosing(s: State) {
    exists x <- s.stops :: s.stops[x].Closing?
  }

  /** A start that raises leaves nothing running; a close that fails leaves nothing running, or
      another stop will close the instance. */
  ghost predicate Harmless(s: State, a: Action)
    requires Enabled(s, a)
  {
    match a
    case StartEnds(c, raised) => raised ==> s.calls[c].pc.instance !in s.live
    case CloseOne(x, i, fails) => fails ==> i !in s.live || HeldElsewhere(s, x, i)
    case _ => true
  }

  ghost predicate Good(s: State, a: Action)
    requires Enabled(s, a)
  {
    Harmless(s, a) && Calm(s, a)
  }

  ghost predicate GoodRun(s: State, actions: seq<Action>)
    requires Runs(s, actions)
    decreases |actions|
  {
    actions == [] || (Good(s, actions[0]) && GoodRun(Apply(s, actions[0]), actions[1..]))
  }

  // ------------------------------------------------------------------ good steps never double

  /** What runs is registered, or once a stop closes instances, about to be closed. */
  ghost predicate Accounted(s: State, i: nat) {
    i in s.names && (if SomeClosing(s) then Held(s, i) else Registered(s, i, s.names[i]))
  }

  ghost predicate StopQuiet(s: State, x: nat)
    requires x in s.stops
  {
    x < s.next && (!s.stops[x].Ended? ==> !s.running && !Busy(s))
  }

  ghost predicate Tame(s: State) {
    && TablesOk(s)
    && (forall x <- s.stops :: StopQuiet(s, x))
    && (forall i <- s.live :: Accounted(s, i))
    && !Doubled(s)
  }

  lemma StopQuietStep(s: State, a: Action, x: nat)
    requires Enabled(s, a) && Calm(s, a) && x in Apply(s, a).stops
    requires x in s.stops ==> StopQuiet(s, x)
    ensures StopQuiet(Apply(s, a), x)
  {
    if !Busy(s) && !s.running { BusyStep(s, a); }
  }

  /** A step that closes or drains keeps whatever runs accounted for. */
  lemma StoppingAccounted(s: State, a: Action, i: nat)
    requires Enabled(s, a) && Harmless(s, a) && (a.Drained? || a.CloseOne? || a.Clear?)
    requires i in s.live && Accounted(s, i) && i in Apply(s, a).live
    ensures Accounted(Apply(s, a), i)
  {
    var t := Apply(s, a);
    if SomeClosing(s) {
      var y :| y in s.stops && s.stops[y].Closing? && i in s.stops[y].rest;
      if a.CloseOne? && i == a.instance {
        var z :| z in s.stops && z != a.stop && s.stops[z].Closing? && i in s.stops[z].rest;
        assert t.stops[z] == s.stops[z];
      } else {
        assert y in t.stops && t.stops[y].Closing? && i in t.stops[y].rest;
      }
    } else {
      assert t.stops[a.stop].Closing? && s.channels[s.names[i]] == i && i in t.stops[a.stop].rest;
    }
  }

  lemma SameClosing(s: State, a: Action, i: nat)
    requires Enabled(s, a) && !(a.Drained? || a.CloseOne? || a.Clear?) && s.next !in s.stops
    ensures SomeClosing(Apply(s, a)) <==> SomeClosing(s)
    ensures Held(s, i) ==> Held(Apply(s, a), i)
  {
    var t := Apply(s, a);
    if SomeClosing(s) {
      var x :| x in s.stops && s.stops[x].Closing?;
      assert t.stops[x].Closing?;
    }
    if Held(s, i) {
      var x :| x in s.stops && s.stops[x].Closing? && i in s.stops[x].rest;
      assert t.stops[x] == s.stops[x];
    }
  }

  lemma OtherAccounted(s: State, a: Action, i: nat)
    requires Tame(s) && Enabled(s, a) && Good(s, a) && !(a.Drained? || a.CloseOne? || a.Clear?)
    requires i in Apply(s, a).live
    ensures Accounted(Apply(s, a), i)
  {
    assert s.next !in s.stops by { assert s.next in s.stops ==> StopQuiet(s, s.next); }
    SameClosing(s, a, i);
    if ActorOf(a).Some? { assert CallOk(s, ActorOf(a).value); }
    if i in s.live {
      assert Accounted(s, i);
      NamesGrow(s, a, i);
      if !SomeClosing(s) { LiveStaysRegistered(s, a, i); }
    } else {
      assert a.GoLive?;
      assert Busy(s) by { assert s.calls[a.call].pc.Inside(); }
      LiveSince(s, a, i);
    }
  }

  lemma TameStep(s: State, a: Action)
    requires Tame(s) && Enabled(s, a) && Good(s, a)
    ensures Tame(Apply(s, a))
  {
    var t := Apply(s, a);
    assert a.Clear? ==> StopQuiet(s, a.stop);
    TablesStep(s, a);
    forall x <- t.stops ensures StopQuiet(t, x) { StopQuietStep(s, a, x); }
    forall i <- t.live ensures Accounted(t, i) {
      if a.Drained? || a.CloseOne? || a.Clear? {
        StoppingAccounted(s, a, i);
      } else {
        OtherAccounted(s, a, i);
      }
    }
  }

  lemma {:induction false} TameRun(s: State, actions: seq<Action>)
    requires Tame(s) && Runs(s, actions) && GoodRun(s, actions)
    ensures Tame(After(s, actions))
    decreases |actions|
  {
    if actions != [] {
      TameStep(s, actions[0]);
      TameRun(Apply(s, actions[0]), actions[1..]);
    }
  }

  /** In no good run does a channel run twice. */
  lemma NeverTwice(s: State, actions: seq<Action>)
    requires Initial(s) && Runs(s, actions) && GoodRun(s, actions)
    ensures !Doubled(After(s, actions))
  {
    TameRun(s, actions);
  }

  // ------------------------------------------------------------------ and every other step can

  /** A good run to a channel that runs twice. */
  ghost predicate DoublingRun(s: State, actions: seq<Action>) {
    Runs(s, actions) && GoodRun(s, actions) && Doubled(After(s, actions))
  }

  lemma {:induction false} GoodOn(s: State, first: seq<Action>, second: seq<Action>)
    requires Runs(s, first) && GoodRun(s, first)
    requires Runs(After(s, first), second) && GoodRun(After(s, first), second)
    ensures Runs(s, first + second) && GoodRun(s, first + second)
    ensures After(s, first + second) == After(After(s, first), second)
    decreases |first|
  {
    if first == [] {
      assert first + second == second;
    } else {
      assert (first + second)[1..] == first[1..] + second;
      GoodOn(Apply(s, first[0]), first[1..], second);
    }
  }

  lemma GoodOne(s: State, a: Action)
    requires Enabled(s, a) && Good(s, a)
    ensures Runs(s, [a]) && GoodRun(s, [a]) && After(s, [a]) == Apply(s, a)
  {
    var t := Apply(s, a);
    assert [a][1..] == [];
    assert Runs(t, []) && GoodRun(t, []) && After(t, []) == t;
  }

  lemma {:induction false} HonestIsGood(s: State, actions: seq<Action>)
    requires Runs(s, actions) && HonestRun(s, actions) && StartService !in actions && StopService !in actions
    ensures GoodRun(s, actions)
    decreases |actions|
  {
    if actions != [] {
      assert actions[0] in actions;
      HonestIsGood(Apply(s, actions[0]), actions[1..]);
    }
  }

  /** A call for a channel that is not registered starts an instance, which runs. */
  lemma StartOne(s: State, name: Name) returns (actions: seq<Action>)
    requires s.running && name !in s.holder && name !in s.channels
    ensures Runs(s, actions) && GoodRun(s, actions)
    ensures var c, i := s.next, s.next + 1;
      After(s, actions) == s.(calls := s.calls[c := Call(name, 0, Starting(i))], channels := s.channels[name := i],
        names := s.names[i := name], holder := s.holder[name := c], live := s.live + {i}, next := s.next + 2)
  {
    var c := s.next;
    var called := s.(calls := s.calls[c := Call(name, 1, Waiting)], next := c + 1);
    assert Apply(s, Ensure(name, 1)) == called;
    var launched := Launch(called, c);
    assert launched.calls == s.calls[c := Call(name, 0, Starting(c + 1))];
    GoodOne(s, Ensure(name, 1));
    GoodOne(called, Enter(c, true));
    GoodOne(launched, GoLive(c));
    GoodOn(called, [Enter(c, true)], [GoLive(c)]);
    GoodOn(s, [Ensure(name, 1)], [Enter(c, true)] + [GoLive(c)]);
    actions := [Ensure(name, 1)] + ([Enter(c, true)] + [GoLive(c)]);
  }

  /** A running instance that is no longer registered is joined by another. */
  lemma EnsureAgain(s: State, i: nat) returns (actions: seq<Action>)
    requires i in s.live && i in s.names && i < s.next
    requires s.names[i] !in s.holder && s.names[i] !in s.channels && (s.running || !Halting(s))
    ensures DoublingRun(s, actions)
  {
    var name := s.names[i];
    if s.running {
      actions := StartOne(s, name);
      var t := After(s, actions);
      assert i in t.live && s.next + 1 in t.live && SameName(t, i, s.next + 1);
    } else {
      var t := Apply(s, StartService);
      var more := StartOne(t, name);
      GoodOne(s, StartService);
      GoodOn(s, [StartService], more);
      actions := [StartService] + more;
      var u := After(t, more);
      assert i in u.live && s.next + 1 in u.live && SameName(u, i, s.next + 1);
    }
  }

  /** A start that raises while its instance runs: the retry starts another, or a further call does. */
  lemma RaisingDoubles(s: State, c: nat) returns (rest: seq<Action>)
    requires Tame(s) && Enabled(s, StartEnds(c, true)) && s.calls[c].pc.instance in s.live
    ensures DoublingRun(Apply(s, StartEnds(c, true)), rest)
  {
    var t, i := Apply(s, StartEnds(c, true)), s.calls[c].pc.instance;
    assert CallOk(s, c);
    assert Busy(s) by { assert s.calls[c].pc.Inside(); }
    if s.calls[c].left > 0 {
      GoodOne(t, GoLive(c));
      rest := [GoLive(c)];
      var u := Apply(t, GoLive(c));
      assert i in u.live && s.next in u.live && SameName(u, i, s.next);
    } else {
      assert !Halting(t);
      rest := EnsureAgain(t, i);
    }
  }

  /** A call that started an instance which a stop has then lost: it is cancelled, and another call follows. */
  lemma LostDoubles(s: State, c: nat) returns (rest: seq<Action>)
    requires HasStarted(s, c) && s.channels == map[] && (s.running || !Halting(s))
    ensures DoublingRun(s, rest)
  {
    var t := Apply(s, Cancel(c));
    assert Halting(t) == Halting(s);
    var more := EnsureAgain(t, s.calls[c].pc.instance);
    rest := [Cancel(c)] + more;
  }

  lemma CloseAllGood(s: State, x: nat) returns (actions: seq<Action>)
    requires x in s.stops && s.stops[x].Closing?
    ensures Runs(s, actions) && GoodRun(s, actions)
    ensures After(s, actions) == s.(stops := s.stops[x := Closing({})], live := s.live - s.stops[x].rest)
  {
    actions := CloseAll(s, x);
    HonestIsGood(s, actions);
  }

  /** The stop closes everything and gets to its last step, and then a call inside starts an instance. */
  lemma StopOverCall(s: State, c: nat) returns (actions: seq<Action>)
    requires Tame(s) && Busy(s) && c in s.calls
    requires s.calls[c].pc.Holds() || (s.calls[c].pc.Waiting? && s.calls[c].name !in s.holder)
    ensures var stopped := Apply(s, StopService);
      && Runs(stopped, actions) && GoodRun(stopped, actions)
      && HasStarted(After(stopped, actions), c) && After(stopped, actions).stops == s.stops[s.next := Closing({})]
  {
    var x := s.next;
    var stopped := Apply(s, StopService);
    var ready := ReachClear(stopped, x);
    var closed := After(stopped, ready);
    assert stopped.stops[x := Closing({})] == s.stops[x := Closing({})];
    assert closed == s.(running := false, live := {}, stops := s.stops[x := Closing({})], next := x + 1);
    GoesOnAfterStop(s, c);
    var more := Restarts(closed, c);
    HonestIsGood(closed, more);
    GoodOn(stopped, ready, more);
    actions := ready + more;
  }

  /** A stop while a call is inside: that call starts an instance after the others were closed. */
  lemma BusyStopDoubles(s: State) returns (rest: seq<Action>)
    requires Tame(s) && Busy(s)
    ensures DoublingRun(Apply(s, StopService), rest)
  {
    var c := SomeoneGoesOn(s);
    var first := StopOverCall(s, c);
    var u := After(Apply(s, StopService), first);
    var lost := Apply(u, Clear(s.next));
    assert !Halting(lost);
    var again := LostDoubles(lost, c);
    GoodThen(Apply(s, StopService), first, [Clear(s.next)] + again);
    rest := first + ([Clear(s.next)] + again);
  }

  lemma GoodThen(s: State, first: seq<Action>, rest: seq<Action>)
    requires Runs(s, first) && GoodRun(s, first) && DoublingRun(After(s, first), rest)
    ensures DoublingRun(s, first + rest)
  {
    GoodOn(s, first, rest);
  }

  lemma {:induction false} FreshName(names: set<Name>) returns (name: Name)
    ensures forall n <- names :: |n| < |name|
  {
    if names == {} {
      name := "x";
    } else {
      var n :| n in names;
      name := FreshName(names - {n});
      if |n| >= |name| { name := n + "x"; }
      forall m <- names ensures |m| < |name| {
        if m != n { assert m in names - {n}; }
      }
    }
  }

  /** What a stop is going to close. */
  function Targets(s: State, x: nat): set<nat>
    requires x in s.stops && !s.stops[x].Ended?
  {
    if s.stops[x].Draining? then s.channels.Values else s.stops[x].rest
  }

  /** A stop can be brought to its last step, without touching the registry. */
  lemma ReachClear(s: State, x: nat) returns (actions: seq<Action>)
    requires x in s.stops && !s.stops[x].Ended?
    ensures Runs(s, actions) && GoodRun(s, actions)
    ensures var t := After(s, actions); t == s.(stops := s.stops[x := Closing({})], live := s.live - Targets(s, x))
  {
    if s.stops[x].Draining? {
      var t := Apply(s, Drained(x));
      var closes := CloseAllGood(t, x);
      GoodOne(s, Drained(x));
      GoodOn(s, [Drained(x)], closes);
      actions := [Drained(x)] + closes;
      assert t.stops[x := Closing({})] == s.stops[x := Closing({})];
    } else {
      actions := CloseAllGood(s, x);
    }
  }

  /** A start of the service during a stop: a new instance is started before the stop empties the registry. */
  lemma EarlyStartDoubles(s: State) returns (rest: seq<Action>)
    requires Tame(s) && Halting(s) && Enabled(s, StartService)
    ensures DoublingRun(Apply(s, StartService), rest)
  {
    var x :| x in s.stops && !s.stops[x].Ended?;
    assert StopQuiet(s, x);
    var t := Apply(s, StartService);
    var ready := ReachClear(t, x);
    var u := After(t, ready);
    var name := FreshName(u.channels.Keys);
    assert name !in u.channels;
    var start := StartOne(u, name);
    var v := After(u, start);
    var lost := Apply(v, Clear(x));
    var again := LostDoubles(lost, u.next);
    GoodThen(u, start, [Clear(x)] + again);
    GoodThen(t, ready, start + ([Clear(x)] + again));
    rest := ready + (start + ([Clear(x)] + again));
  }

  function Unended(s: State): set<nat> {
    set x | x in s.stops && !s.stops[x].Ended?
  }

  lemma CountDown(s: State, t: State, x: nat)
    requires x in s.stops && !s.stops[x].Ended? && t.stops == s.stops[x := Ended]
    ensures Unended(t) == Unended(s) - {x} && |Unended(t)| < |Unended(s)|
  {
    assert x in Unended(s);
  }

  /** Once the registry is empty, all stops can end without closing what none of them holds. */
  lemma {:induction false} EndStops(s: State, i: nat) returns (actions: seq<Action>)
    requires s.channels == map[] && i in s.live && !Held(s, i)
    ensures Runs(s, actions) && GoodRun(s, actions)
    ensures var t := After(s, actions);
      t == s.(stops := t.stops, live := t.live) && i in t.live && !Halting(t)
    decreases |Unended(s)|
  {
    if Unended(s) == {} {
      actions := [];
      assert forall x <- s.stops :: !s.stops[x].Ended? ==> x in Unended(s);
    } else {
      var x :| x in Unended(s);
      var ready := ReachClear(s, x);
      assert i !in Targets(s, x);
      var t := After(s, ready);
      var u := Apply(t, Clear(x));
      assert u.stops == s.stops[x := Ended];
      CountDown(s, u, x);
      GoodOne(t, Clear(x));
      GoodOn(s, ready, [Clear(x)]);
      assert i in u.live && !Held(u, i);
      var more := EndStops(u, i);
      GoodOn(s, ready + [Clear(x)], more);
      actions := ready + [Clear(x)] + more;
    }
  }

  /** A close that fails to stop a running instance which no other stop holds: all stops end without
      it, and after a start of the service a call starts another. */
  lemma FailedCloseDoubles(s: State, x: nat, i: nat) returns (rest: seq<Action>)
    requires Tame(s) && Enabled(s, CloseOne(x, i, true)) && i in s.live && !HeldElsewhere(s, x, i)
    ensures DoublingRun(Apply(s, CloseOne(x, i, true)), rest)
  {
    assert StopQuiet(s, x) && Accounted(s, i);
    var t := Apply(s, CloseOne(x, i, true));
    var ready := ReachClear(t, x);
    var u := After(t, ready);
    var cleared := Apply(u, Clear(x));
    assert !Held(cleared, i);
    var ends := EndStops(cleared, i);
    var again := EnsureAgain(After(cleared, ends), i);
    GoodThen(cleared, ends, again);
    GoodThen(t, ready, [Clear(x)] + (ends + again));
    rest := ready + ([Clear(x)] + (ends + again));
  }

  lemma BadStepDoubles(s: State, a: Action) returns (rest: seq<Action>)
    requires Tame(s) && Enabled(s, a) && !Good(s, a)
    ensures DoublingRun(Apply(s, a), rest)
  {
    if a.StartEnds? {
      rest := RaisingDoubles(s, a.call);
    } else if a.CloseOne? {
      rest := FailedCloseDoubles(s, a.stop, a.instance);
    } else if a.StopService? {
      rest := BusyStopDoubles(s);
    } else {
      rest := EarlyStartDoubles(s);
    }
  }

  /** The exact condition: after a step some good run makes a channel run twice if and only if the
      step is a start that raises while its instance runs, a close that fails to stop a running
      instance which no other stop holds, a stop of the service while a call is inside, or a start
      of the service during a stop. */
  lemma DoublesIff(s: State, a: Action)
    requires Tame(s) && Enabled(s, a)
    ensures (exists rest :: DoublingRun(Apply(s, a), rest)) <==> !Good(s, a)
  {
    if Good(s, a) {
      TameStep(s, a);
      var t := Apply(s, a);
      forall rest | Runs(t, rest) && GoodRun(t, rest) ensures !Doubled(After(t, rest)) { TameRun(t, rest); }
    } else {
      var rest := BadStepDoubles(s, a);
    }
  }
}
