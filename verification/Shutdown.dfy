/** Starting, stopping and draining the channel manager (ChannelManager.start, stop,
    _stop_handlers and _dispatch_loop in backend/app/channels/manager.py, and
    ChannelService.stop in backend/app/channels/service.py).

    Dispatch loops, handlers, shutdown tasks and the callers of start and stop run
    interleaved. A shutdown clears the running flag and cancels the loop it finds,
    waits for it, then cancels the handlers it finds and waits for them. */
module Shutdown {
  import opened Options

  datatype Loop = Live(cancelled: bool) | Ended

  datatype Handler = Handler(done: bool, cancels: nat)

  datatype StopPc = Begin | AwaitLoop(loop: nat) | Gather(handlers: set<nat>) | Finished

  /** Callers of start and stop; a service caller closes its transports once the manager's stop returns. */
  datatype CallerPc = AwaitToStart(stop: nat) | AwaitStop(stop: nat, service: bool) | Closing(stop: nat) | Returned

  datatype State = State(
    running: bool,
    task: Option<nat>,
    stopTask: Option<nat>,
    loops: map<nat, Loop>,
    handlers: map<nat, Handler>,
    tracked: set<nat>,
    stops: map<nat, StopPc>,
    callers: map<nat, CallerPc>,
    next: nat)

  datatype Action =
    | CallStart
    | ResumeStart(caller: nat)
    | CallStop(service: bool)
    | ResumeStop(caller: nat)
    | Abandon(caller: nat)
    | CloseTransports(caller: nat)
    | StopStep(stop: nat)
    | Spawn(loop: nat)
    | EndLoop(loop: nat)
    | EndHandler(handler: nat)
    | Discard(handler: nat)

  /** The phase of the current shutdown; Finished if there never was one. */
  function Phase(s: State): StopPc {
    if s.stopTask.Some? && s.stopTask.value in s.stops then s.stops[s.stopTask.value] else Finished
  }

  predicate StopDone(s: State, stop: nat) {
    stop in s.stops && s.stops[stop].Finished?
  }

  predicate AllDone(s: State, hs: set<nat>) {
    forall h <- hs :: h in s.handlers ==> s.handlers[h].done
  }

  predicate Enabled(s: State, a: Action) {
    match a
    case CallStart => true
    case ResumeStart(c) => c in s.callers && s.callers[c].AwaitToStart? && StopDone(s, s.callers[c].stop)
    case CallStop(_) => true
    case ResumeStop(c) => c in s.callers && s.callers[c].AwaitStop? && StopDone(s, s.callers[c].stop)
    case Abandon(c) => c in s.callers && (s.callers[c].AwaitToStart? || s.callers[c].AwaitStop?)
    case CloseTransports(c) => c in s.callers && s.callers[c].Closing?
    case StopStep(x) =>
      x in s.stops &&
      (match s.stops[x]
       case Begin => true
       case AwaitLoop(l) => l in s.loops && s.loops[l].Ended?
       case Gather(hs) => AllDone(s, hs)
       case Finished => false)
    case Spawn(l) => l in s.loops && s.loops[l].Live?
    case EndLoop(l) => l in s.loops && s.loops[l].Live? && (s.loops[l].cancelled || !s.running)
    case EndHandler(h) => h in s.handlers && !s.handlers[h].done
    case Discard(h) => h in s.handlers && s.handlers[h].done
  }

  /** The rest of `start`, which does not look at the shutdown again. */
  function Started(s: State): State {
    if s.running then s
    else s.(running := true, task := Some(s.next), loops := s.loops[s.next := Live(false)], next := s.next + 1)
  }

  function CancelLoop(s: State, l: nat): State {
    if l in s.loops && s.loops[l].Live? then s.(loops := s.loops[l := Live(true)]) else s
  }

  /** Snapshot of the tracked handlers, each cancelled unless already done. */
  function CancelTracked(s: State, stop: nat): State {
    s.(handlers := map h | h in s.handlers ::
         if h in s.tracked && !s.handlers[h].done then s.handlers[h].(cancels := s.handlers[h].cancels + 1)
         else s.handlers[h],
       stops := s.stops[stop := Gather(s.tracked)])
  }

  function AfterStopStep(s: State, stop: nat): State
    requires stop in s.stops
  {
    match s.stops[stop]
    case Begin =>
      var t := s.(running := false);
      if s.task.Some? then CancelLoop(t, s.task.value).(stops := s.stops[stop := AwaitLoop(s.task.value)])
      else CancelTracked(t, stop)
    case AwaitLoop(_) => CancelTracked(s.(task := None), stop)
    case Gather(hs) => s.(tracked := s.tracked - hs, stops := s.stops[stop := Finished])
    case Finished => s
  }

  function Return(s: State, c: nat, pc: CallerPc): State {
    s.(callers := s.callers[c := pc])
  }

  function Apply(s: State, a: Action): State
    requires Enabled(s, a)
  {
    match a
    case CallStart =>
      if Phase(s).Finished? || s.stopTask.None? then Started(s)
      else s.(callers := s.callers[s.next := AwaitToStart(s.stopTask.value)], next := s.next + 1)
    case ResumeStart(c) => Started(Return(s, c, Returned))
    case CallStop(service) =>
      if Phase(s).Finished? || s.stopTask.None? then
        s.(stopTask := Some(s.next), stops := s.stops[s.next := Begin],
           callers := s.callers[s.next + 1 := AwaitStop(s.next, service)], next := s.next + 2)
      else s.(callers := s.callers[s.next := AwaitStop(s.stopTask.value, service)], next := s.next + 1)
    case ResumeStop(c) => Return(s, c, if s.callers[c].service then Closing(s.callers[c].stop) else Returned)
    case Abandon(c) => Return(s, c, Returned)
    case CloseTransports(c) => Return(s, c, Returned)
    case StopStep(x) => AfterStopStep(s, x)
    case Spawn(_) => s.(handlers := s.handlers[s.next := Handler(false, 0)], tracked := s.tracked + {s.next},
        next := s.next + 1)
    case EndLoop(l) => s.(loops := s.loops[l := Ended])
    case EndHandler(h) => s.(handlers := s.handlers[h := s.handlers[h].(done := true)])
    case Discard(h) => s.(tracked := s.tracked - {h})
  }

  predicate Initial(s: State) {
    s == State(false, None, None, map[], map[], {}, map[], map[], 0)
  }

  predicate Runs(s: State, actions: seq<Action>)
    decreases |actions|
  {
    actions == [] || (Enabled(s, actions[0]) && Runs(Apply(s, actions[0]), actions[1..]))
  }

  function After(s: State, actions: seq<Action>): State
    requires Runs(s, actions)
    decreases |actions|
  {
    if actions == [] then s else After(Apply(s, actions[0]), actions[1..])
  }

  // ------------------------------------------------------------------ one shutdown at a time, in every run

  ghost predicate HandlerOk(s: State, h: nat)
    requires h in s.handlers
  {
    var Handler(done, cancels) := s.handlers[h];
    && (!done ==> h in s.tracked)
    && cancels <= 1
    && (!done && cancels == 1 ==> Phase(s).Gather? && h in Phase(s).handlers)
  }

  ghost predicate StopOk(s: State, x: nat)
    requires x in s.stops
  {
    s.stops[x].Finished? || s.stopTask == Some(x)
  }

  ghost predicate FreshOk(s: State) {
    && (forall l <- s.loops :: l < s.next) && (forall h <- s.handlers :: h < s.next)
    && (forall x <- s.stops :: x < s.next) && (forall c <- s.callers :: c < s.next)
    && s.tracked <= s.handlers.Keys
    && (s.stopTask.Some? ==> s.stopTask.value in s.stops)
  }

  ghost predicate BaseInv(s: State) {
    FreshOk(s) && (forall x <- s.stops :: StopOk(s, x)) && (forall h <- s.handlers :: HandlerOk(s, h))
  }

  lemma FreshStep(s: State, a: Action)
    requires FreshOk(s) && Enabled(s, a)
    ensures FreshOk(Apply(s, a))
  {
    FreshLoops(s, a);
    FreshStops(s, a);
  }

  lemma FreshLoops(s: State, a: Action)
    requires FreshOk(s) && Enabled(s, a)
    ensures forall l <- Apply(s, a).loops :: l < Apply(s, a).next
    ensures forall h <- Apply(s, a).handlers :: h < Apply(s, a).next
    ensures Apply(s, a).tracked <= Apply(s, a).handlers.Keys
  {
  }

  lemma FreshStops(s: State, a: Action)
    requires FreshOk(s) && Enabled(s, a)
    ensures var t := Apply(s, a);
      && (forall x <- t.stops :: x < t.next) && (forall c <- t.callers :: c < t.next)
      && (t.stopTask.Some? ==> t.stopTask.value in t.stops)
  {
  }

  lemma StopOkStep(s: State, a: Action, x: nat)
    requires Enabled(s, a) && x in Apply(s, a).stops && (x in s.stops ==> StopOk(s, x))
    ensures StopOk(Apply(s, a), x)
  {
  }

  lemma HandlerOkStep(s: State, a: Action, h: nat)
    requires FreshOk(s) && Enabled(s, a) && h in Apply(s, a).handlers
    requires h in s.handlers ==> HandlerOk(s, h)
    requires a.StopStep? ==> StopOk(s, a.stop)
    ensures HandlerOk(Apply(s, a), h)
  {
    if a.StopStep? { HandlerOkStop(s, a.stop, h); }
  }

  lemma HandlerOkStop(s: State, x: nat, h: nat)
    requires Enabled(s, StopStep(x)) && h in s.handlers && HandlerOk(s, h) && StopOk(s, x)
    ensures h in AfterStopStep(s, x).handlers && HandlerOk(AfterStopStep(s, x), h)
  {
    assert Phase(s) == s.stops[x];
  }

  lemma BaseInvStep(s: State, a: Action)
    requires BaseInv(s) && Enabled(s, a)
    ensures BaseInv(Apply(s, a))
  {
    FreshStep(s, a);
    forall x <- Apply(s, a).stops ensures StopOk(Apply(s, a), x) { StopOkStep(s, a, x); }
    forall h <- Apply(s, a).handlers ensures HandlerOk(Apply(s, a), h) { HandlerOkStep(s, a, h); }
  }

  lemma {:induction false} BaseInvRun(s: State, actions: seq<Action>)
    requires BaseInv(s) && Runs(s, actions)
    ensures BaseInv(After(s, actions))
    decreases |actions|
  {
    if actions != [] {
      BaseInvStep(s, actions[0]);
      BaseInvRun(Apply(s, actions[0]), actions[1..]);
    }
  }

  /** In every run overlapping stops share one shutdown, and no handler is cancelled twice. */
  lemma StopsShareOneShutdown(s: State, actions: seq<Action>)
    requires Initial(s) && Runs(s, actions)
    ensures var t := After(s, actions);
            && (forall x, y :: x in t.stops && y in t.stops && !t.stops[x].Finished? && !t.stops[y].Finished? ==>
                x == y)
            && (forall h <- t.handlers :: t.handlers[h].cancels <= 1)
  {
    BaseInvRun(s, actions);
    var t := After(s, actions);
    forall x <- t.stops ensures StopOk(t, x) {}
    forall h <- t.handlers ensures HandlerOk(t, h) {}
  }

  // ------------------------------------------------------------------ what callers wait for

  /** A call of stop awaits the one unfinished shutdown there is then: one under way, or a new one. */
  lemma StopAwaits(s: State, service: bool) returns (c: nat)
    requires BaseInv(s)
    ensures Enabled(s, CallStop(service))
    ensures var t := Apply(s, CallStop(service));
      && c !in s.callers && t.stopTask.Some? && t.callers == s.callers[c := AwaitStop(t.stopTask.value, service)]
      && !StopDone(t, t.stopTask.value) && t.stopTask.value in t.stops
      && (forall x <- s.stops :: !s.stops[x].Finished? ==> t.stopTask == Some(x) && t.stops == s.stops)
      && t == s.(stopTask := t.stopTask, stops := t.stops, callers := t.callers, next := t.next)
  {
    c := if Phase(s).Finished? then s.next + 1 else s.next;
    forall x <- s.stops ensures StopOk(s, x) {}
  }

  /** A call of start awaits the unfinished shutdown if there is one, and otherwise the manager runs. */
  lemma StartAwaits(s: State) returns (c: nat)
    requires BaseInv(s)
    ensures Enabled(s, CallStart)
    ensures var t := Apply(s, CallStart);
      if exists x <- s.stops :: !s.stops[x].Finished? then
        && c !in s.callers && t == s.(callers := t.callers, next := t.next)
        && s.stopTask.Some? && !StopDone(s, s.stopTask.value)
        && t.callers == s.callers[c := AwaitToStart(s.stopTask.value)]
      else Runnable(s, t) && t.callers == s.callers
  {
    c := s.next;
    forall x <- s.stops ensures StopOk(s, x) {}
  }

  /** The manager runs, and has a new loop unless it ran before. */
  ghost predicate Runnable(s: State, t: State) {
    if s.running then t.running && t.task == s.task && t.loops == s.loops
    else
      && t.running && t.task.Some? && t.task.value !in s.loops
      && t.loops == s.loops[t.task.value := Live(false)]
  }

  /** A caller that waits goes on just when its shutdown is finished, or is cancelled. A waiting start then
      makes the manager run, the service closes its transports, and any other caller of stop returns. */
  lemma WaitersGoOn(s: State, c: nat)
    requires BaseInv(s) && c in s.callers
    ensures s.callers[c].AwaitToStart? ==>
      && (Enabled(s, ResumeStart(c)) <==> StopDone(s, s.callers[c].stop))
      && (Enabled(s, ResumeStart(c)) ==>
            Runnable(s, Apply(s, ResumeStart(c))) && Apply(s, ResumeStart(c)).callers == s.callers[c := Returned])
    ensures s.callers[c].AwaitStop? ==>
      var AwaitStop(x, service) := s.callers[c];
      && (Enabled(s, ResumeStop(c)) <==> StopDone(s, x))
      && (StopDone(s, x) ==>
            Apply(s, ResumeStop(c)) == s.(callers := s.callers[c := if service then Closing(x) else Returned]))
    ensures s.callers[c].AwaitToStart? || s.callers[c].AwaitStop? ==>
      Enabled(s, Abandon(c)) && Apply(s, Abandon(c)) == s.(callers := s.callers[c := Returned])
    ensures s.callers[c].Closing? ==>
      Enabled(s, CloseTransports(c)) && Apply(s, CloseTransports(c)) == s.(callers := s.callers[c := Returned])
  {
  }

  /** A handler is tracked from its start until it is done. */
  lemma HandlersComeAndGo(s: State, h: nat)
    requires BaseInv(s)
    ensures forall l :: Enabled(s, Spawn(l)) ==>
      var t := Apply(s, Spawn(l));
      && s.next !in s.handlers && t.handlers == s.handlers[s.next := Handler(false, 0)]
      && t.tracked == s.tracked + {s.next}
    ensures h in s.handlers && !s.handlers[h].done ==>
      && h in s.tracked && Enabled(s, EndHandler(h))
      && Apply(s, EndHandler(h)).handlers == s.handlers[h := Handler(true, s.handlers[h].cancels)]
    ensures h in s.handlers && s.handlers[h].done ==>
      Enabled(s, Discard(h)) && Apply(s, Discard(h)) == s.(tracked := s.tracked - {h})
  {
    if h in s.handlers { assert HandlerOk(s, h); }
  }

  // ------------------------------------------------------------------ everybody waited for is told to end

  /** The loop a shutdown waits for was cancelled, and each handler once, unless it has ended. */
  ghost predicate ToldToEnd(s: State) {
    && (s.task.Some? ==> s.task.value in s.loops)
    && (Phase(s).AwaitLoop? ==> Phase(s).loop in s.loops && s.loops[Phase(s).loop] != Live(false))
    && (Phase(s).Gather? ==>
          forall h <- Phase(s).handlers :: h in s.handlers && (s.handlers[h].done || s.handlers[h].cancels == 1))
  }

  lemma ToldToEndStep(s: State, a: Action)
    requires BaseInv(s) && ToldToEnd(s) && Enabled(s, a)
    ensures ToldToEnd(Apply(s, a))
  {
    if a.StopStep? {
      assert StopOk(s, a.stop) && Phase(s) == s.stops[a.stop];
      forall h <- s.handlers ensures HandlerOk(s, h) {}
    } else if a.CallStop? {
      assert Phase(Apply(s, a)) == Phase(s) || Phase(Apply(s, a)) == Begin;
    } else {
      assert Phase(Apply(s, a)) == Phase(s);
    }
  }

  lemma {:induction false} ToldToEndRun(s: State, actions: seq<Action>)
    requires BaseInv(s) && ToldToEnd(s) && Runs(s, actions)
    ensures ToldToEnd(After(s, actions))
    decreases |actions|
  {
    if actions != [] {
      BaseInvStep(s, actions[0]);
      ToldToEndStep(s, actions[0]);
      ToldToEndRun(Apply(s, actions[0]), actions[1..]);
    }
  }

  /** In every run a shutdown waits only for what it has told to end, and by the time it waits for
      handlers that is every handler there is. */
  lemma WaitsForCancelled(s: State, actions: seq<Action>, x: nat)
    requires Initial(s) && Runs(s, actions)
    ensures ToldToEnd(After(s, actions))
    ensures var t := After(s, actions);
      Enabled(t, StopStep(x)) && !t.stops[x].Gather? ==>
        var u := Apply(t, StopStep(x));
        && u.stopTask == Some(x) && (t.stops[x].Begin? ==> !u.running)
        && (t.stops[x].Begin? && t.task.Some? ==> u.stops[x] == AwaitLoop(t.task.value))
        && (t.stops[x].AwaitLoop? || t.task.None? ==> u.stops[x].Gather? && u.task == None)
        && (u.stops[x].Gather? ==> forall h <- u.handlers :: !u.handlers[h].done ==>
              u.handlers[h].cancels == 1 && h in u.stops[x].handlers)
  {
    BaseInvRun(s, actions);
    ToldToEndRun(s, actions);
    var t := After(s, actions);
    if Enabled(t, StopStep(x)) {
      assert StopOk(t, x) && Phase(t) == t.stops[x];
      forall h <- t.handlers ensures HandlerOk(t, h) {}
    }
  }

  // ------------------------------------------------------------------ draining

  ghost predicate Drained(s: State) {
    && (forall l <- s.loops :: s.loops[l].Ended?)
    && (forall h <- s.handlers :: s.handlers[h].done)
  }

  /** The shutdown has taken hold: it is waiting for the loop or for the handlers. */
  predicate Stopping(s: State) {
    Phase(s).AwaitLoop? || Phase(s).Gather?
  }

  /** The only live loop is the one the manager refers to; a shutdown that waits for handlers has
      no loop left and waits for every live handler; and a manager that is neither running nor
      being stopped is drained. */
  ghost predicate DrainInv(s: State) {
    && (s.task.Some? ==> s.task.value in s.loops)
    && (s.running ==> s.task.Some?)
    && (forall l <- s.loops :: s.loops[l].Live? ==> s.task == Some(l))
    && (Phase(s).AwaitLoop? ==> !s.running && s.task == Some(Phase(s).loop))
    && (Phase(s).Gather? ==>
          && !s.running && s.task == None && (forall l <- s.loops :: s.loops[l].Ended?)
          && (forall h <- s.handlers :: !s.handlers[h].done ==> h in Phase(s).handlers)
          && s.tracked <= Phase(s).handlers)
    && (!s.running && !Stopping(s) ==> s.task == None && Drained(s) && s.tracked == {})
  }

  /** The one thing that must not happen: a start that waited for an earlier shutdown goes on while
      a newer one has taken hold. */
  predicate LateStart(s: State, a: Action) {
    a.ResumeStart? && Stopping(s)
  }

  lemma StopStepDrains(s: State, x: nat)
    requires BaseInv(s) && DrainInv(s) && Enabled(s, StopStep(x))
    ensures DrainInv(AfterStopStep(s, x))
    ensures s.stops[x].Gather? ==> Drained(AfterStopStep(s, x))
  {
    assert StopOk(s, x);
    assert Phase(s) == s.stops[x];
    forall h <- s.handlers ensures !s.handlers[h].done ==> h in s.tracked { assert HandlerOk(s, h); }
  }

  lemma OtherStepDrains(s: State, a: Action)
    requires FreshOk(s) && DrainInv(s) && Enabled(s, a) && !a.StopStep? && !LateStart(s, a)
    ensures DrainInv(Apply(s, a))
  {
    var t := Apply(s, a);
    if a.CallStart? || a.ResumeStart? {
      assert !s.running ==> !Stopping(s) || t.running == s.running;
    } else if a.CallStop? {
      assert Phase(t) == Phase(s) || Phase(t) == Begin;
    } else {
      assert Phase(t) == Phase(s);
    }
  }

  /** Runs in which no start resumes late. */
  predicate Calm(s: State, actions: seq<Action>)
    requires Runs(s, actions)
    decreases |actions|
  {
    actions == [] || (!LateStart(s, actions[0]) && Calm(Apply(s, actions[0]), actions[1..]))
  }

  lemma {:induction false} DrainRun(s: State, actions: seq<Action>)
    requires BaseInv(s) && DrainInv(s) && Runs(s, actions) && Calm(s, actions)
    ensures BaseInv(After(s, actions)) && DrainInv(After(s, actions))
    decreases |actions|
  {
    if actions != [] {
      BaseInvStep(s, actions[0]);
      if actions[0].StopStep? { StopStepDrains(s, actions[0].stop); } else { OtherStepDrains(s, actions[0]); }
      DrainRun(Apply(s, actions[0]), actions[1..]);
    }
  }

  ghost predicate TwoLoops(s: State) {
    exists l, m :: l != m && l in s.loops && m in s.loops && s.loops[l].Live? && s.loops[m].Live?
  }

  /** Without late starts there are never two live dispatch loops, a shutdown finishes only when the
      loop and all handlers have, and a manager that is neither running nor stopping is drained. */
  lemma StopDrains(s: State, actions: seq<Action>)
    requires Initial(s) && Runs(s, actions) && Calm(s, actions)
    ensures var t := After(s, actions);
            && !TwoLoops(t)
            && (forall x :: Enabled(t, StopStep(x)) && t.stops[x].Gather? ==> Drained(Apply(t, StopStep(x))))
            && (!t.running && !Stopping(t) ==> Drained(t) && t.tracked == {})
  {
    assert BaseInv(s) && DrainInv(s);
    DrainRun(s, actions);
    var t := After(s, actions);
    forall x | Enabled(t, StopStep(x)) && t.stops[x].Gather? ensures Drained(Apply(t, StopStep(x))) {
      StopStepDrains(t, x);
    }
  }

  // ------------------------------------------------------------------ what the callers of stop find

  /** Every loop and handler there was at `u` has ended by `v`. */
  ghost predicate Over(u: State, v: State) {
    && (forall l <- u.loops :: l in v.loops && v.loops[l].Ended?)
    && (forall h <- u.handlers :: h in v.handlers && v.handlers[h].done)
  }

  lemma OverStep(u: State, v: State, a: Action)
    requires Over(u, v) && FreshOk(v) && Enabled(v, a)
    ensures Over(u, Apply(v, a))
  {
    forall l <- u.loops ensures l in Apply(v, a).loops && Apply(v, a).loops[l].Ended? { EndedStays(v, a, l); }
    forall h <- u.handlers ensures h in Apply(v, a).handlers && Apply(v, a).handlers[h].done { DoneStays(v, a, h); }
  }

  lemma EndedStays(s: State, a: Action, l: nat)
    requires Enabled(s, a) && l in s.loops && l < s.next && s.loops[l].Ended?
    ensures l in Apply(s, a).loops && Apply(s, a).loops[l].Ended?
  {
  }

  lemma DoneStays(s: State, a: Action, h: nat)
    requires Enabled(s, a) && h in s.handlers && h < s.next && s.handlers[h].done
    ensures h in Apply(s, a).handlers && Apply(s, a).handlers[h].done
  {
  }

  /** What was over stays over, whatever happens then. */
  lemma {:induction false} OverRun(u: State, v: State, rest: seq<Action>)
    requires Over(u, v) && FreshOk(v) && Runs(v, rest)
    ensures Over(u, After(v, rest))
    decreases |rest|
  {
    if rest != [] {
      OverStep(u, v, rest[0]);
      FreshStep(v, rest[0]);
      OverRun(u, Apply(v, rest[0]), rest[1..]);
    }
  }

  /** In a run that goes on with `rest`, the shutdown x finishes after `first`. */
  ghost predicate FinishesAfter(s: State, first: seq<Action>, x: nat, rest: seq<Action>) {
    && Runs(s, first) && Enabled(After(s, first), StopStep(x)) && After(s, first).stops[x].Gather?
    && Runs(Apply(After(s, first), StopStep(x)), rest)
  }

  /** A finished shutdown finished at some step of the run. */
  lemma {:induction false} FinishedAt(s: State, actions: seq<Action>, x: nat)
      returns (first: seq<Action>, rest: seq<Action>)
    requires Runs(s, actions) && !StopDone(s, x) && StopDone(After(s, actions), x)
    ensures actions == first + [StopStep(x)] + rest && FinishesAfter(s, first, x, rest)
    ensures After(Apply(After(s, first), StopStep(x)), rest) == After(s, actions)
    decreases |actions|
  {
    var t := Apply(s, actions[0]);
    if StopDone(t, x) {
      FinishingStep(s, actions[0], x);
      first, rest := [], actions[1..];
      assert actions == [actions[0]] + actions[1..];
    } else {
      var more;
      more, rest := FinishedAt(t, actions[1..], x);
      first := [actions[0]] + more;
      assert actions == [actions[0]] + (more + [StopStep(x)] + rest);
      assert first[1..] == more;
    }
  }

  lemma FinishingStep(s: State, a: Action, x: nat)
    requires Enabled(s, a) && !StopDone(s, x) && StopDone(Apply(s, a), x)
    ensures a == StopStep(x) && s.stops[x].Gather?
  {
  }

  /** Whoever closes transports has awaited a shutdown that is finished. */
  ghost predicate ClosingOk(s: State) {
    forall c <- s.callers :: s.callers[c].Closing? ==> StopDone(s, s.callers[c].stop)
  }

  lemma DoneStopStays(s: State, a: Action, x: nat)
    requires Enabled(s, a) && FreshOk(s) && StopDone(s, x)
    ensures StopDone(Apply(s, a), x)
  {
  }

  lemma ClosingSince(s: State, a: Action, c: nat)
    requires Enabled(s, a) && c in Apply(s, a).callers && Apply(s, a).callers[c].Closing?
    ensures var x := Apply(s, a).callers[c].stop;
      (c in s.callers && s.callers[c] == Closing(x)) || StopDone(s, x)
  {
  }

  lemma ClosingStep(s: State, a: Action)
    requires FreshOk(s) && ClosingOk(s) && Enabled(s, a)
    ensures ClosingOk(Apply(s, a))
  {
    forall c <- Apply(s, a).callers | Apply(s, a).callers[c].Closing?
      ensures StopDone(Apply(s, a), Apply(s, a).callers[c].stop)
    {
      ClosingSince(s, a, c);
      DoneStopStays(s, a, Apply(s, a).callers[c].stop);
    }
  }

  lemma {:induction false} ClosingRun(s: State, actions: seq<Action>)
    requires FreshOk(s) && ClosingOk(s) && Runs(s, actions)
    ensures FreshOk(After(s, actions)) && ClosingOk(After(s, actions))
    decreases |actions|
  {
    if actions != [] {
      FreshStep(s, actions[0]);
      ClosingStep(s, actions[0]);
      ClosingRun(Apply(s, actions[0]), actions[1..]);
    }
  }

  /** Everything there was when a shutdown finished stays ended, even if the manager is started
      again; without late starts before it, that is every loop and handler there was. */
  lemma FinishedStaysDrained(s: State, first: seq<Action>, x: nat, rest: seq<Action>)
    requires Initial(s) && FinishesAfter(s, first, x, rest) && Calm(s, first)
    ensures var u := Apply(After(s, first), StopStep(x));
      Drained(u) && Over(u, After(u, rest))
  {
    StopDrains(s, first);
    var t := After(s, first);
    BaseInvRun(s, first);
    BaseInvStep(t, StopStep(x));
    OverRun(Apply(t, StopStep(x)), Apply(t, StopStep(x)), rest);
  }

  /** A caller that is about to return from stop, or a service about to close its transports, has
      awaited a shutdown that finished at some step of the run; if no start resumed late before
      that, every loop and handler there was then has ended, whoever has started the manager since. */
  lemma CallerFindsDrained(s: State, actions: seq<Action>, c: nat) returns (first: seq<Action>, rest: seq<Action>)
    requires Initial(s) && Runs(s, actions)
    requires Enabled(After(s, actions), ResumeStop(c)) || Enabled(After(s, actions), CloseTransports(c))
    ensures var x := After(s, actions).callers[c].stop;
      && actions == first + [StopStep(x)] + rest && FinishesAfter(s, first, x, rest)
      && (Calm(s, first) ==>
            Drained(Apply(After(s, first), StopStep(x)))
                && Over(Apply(After(s, first), StopStep(x)), After(s, actions)))
  {
    ClosingRun(s, actions);
    var x := After(s, actions).callers[c].stop;
    first, rest := FinishedAt(s, actions, x);
    if Calm(s, first) { FinishedStaysDrained(s, first, x, rest); }
  }

  // ------------------------------------------------------------------ one dispatch loop

  /** A live loop is the one the manager refers to; and only a shutdown that waits for its loop lets
      the manager refer to one without running. */
  ghost predicate LoopInv(s: State) {
    && FreshOk(s) && (forall x <- s.stops :: StopOk(s, x))
    && (s.task.Some? ==> s.task.value in s.loops)
    && (s.running ==> s.task.Some?)
    && (forall l <- s.loops :: s.loops[l].Live? ==> s.task == Some(l))
    && (Phase(s).AwaitLoop? ==> !s.running && s.task == Some(Phase(s).loop))
    && (!s.running && !Phase(s).AwaitLoop? ==> s.task == None)
  }

  /** A start that waited for an earlier shutdown goes on while a newer one waits for its loop. */
  predicate Overtakes(s: State, a: Action) {
    a.ResumeStart? && Phase(s).AwaitLoop?
  }

  predicate Orderly(s: State, actions: seq<Action>)
    requires Runs(s, actions)
    decreases |actions|
  {
    actions == [] || (!Overtakes(s, actions[0]) && Orderly(Apply(s, actions[0]), actions[1..]))
  }

  lemma LoopInvStopStep(s: State, x: nat)
    requires LoopInv(s) && Enabled(s, StopStep(x))
    ensures LoopInv(Apply(s, StopStep(x)))
  {
    assert StopOk(s, x);
    assert Phase(s) == s.stops[x];
    FreshStep(s, StopStep(x));
    forall y <- s.stops ensures StopOk(Apply(s, StopStep(x)), y) { StopOkStep(s, StopStep(x), y); }
  }

  lemma LoopInvOtherStep(s: State, a: Action)
    requires LoopInv(s) && Enabled(s, a) && !a.StopStep? && !Overtakes(s, a)
    ensures LoopInv(Apply(s, a))
  {
    var t := Apply(s, a);
    FreshStep(s, a);
    forall y <- t.stops ensures StopOk(t, y) { StopOkStep(s, a, y); }
    assert if a.CallStop? then Phase(t) == Phase(s) || Phase(t) == Begin else Phase(t) == Phase(s);
  }

  lemma {:induction false} LoopInvRun(s: State, actions: seq<Action>)
    requires LoopInv(s) && Runs(s, actions) && Orderly(s, actions)
    ensures LoopInv(After(s, actions)) && !TwoLoops(After(s, actions))
    decreases |actions|
  {
    if actions != [] {
      if actions[0].StopStep? { LoopInvStopStep(s, actions[0].stop); } else { LoopInvOtherStep(s, actions[0]); }
      LoopInvRun(Apply(s, actions[0]), actions[1..]);
    }
  }

  /** There are never two live dispatch loops in a run in which no start goes on while a newer
      shutdown waits for its loop. */
  lemma OneLoop(s: State, actions: seq<Action>)
    requires Initial(s) && Runs(s, actions) && Orderly(s, actions)
    ensures !TwoLoops(After(s, actions))
  {
    LoopInvRun(s, actions);
  }

  /** An orderly run to two live loops. */
  ghost predicate DoublesLoop(s: State, actions: seq<Action>) {
    Runs(s, actions) && Orderly(s, actions) && TwoLoops(After(s, actions))
  }

  /** The exact condition: the rest of a start that waited can be followed by two live loops, without
      any further such start, if and only if a newer shutdown is waiting for its loop. */
  lemma TwoLoopsIffOvertaking(s: State, c: nat)
    requires LoopInv(s) && Enabled(s, ResumeStart(c))
    ensures (exists rest :: DoublesLoop(Apply(s, ResumeStart(c)), rest)) <==> Phase(s).AwaitLoop?
  {
    var t := Apply(s, ResumeStart(c));
    if Phase(s).AwaitLoop? {
      var rest := OvertakingDoubles(s, c);
    } else {
      LoopInvOtherStep(s, ResumeStart(c));
      forall rest | Runs(t, rest) && Orderly(t, rest) ensures !TwoLoops(After(t, rest)) { LoopInvRun(t, rest); }
    }
  }

  predicate NoResumes(actions: seq<Action>) {
    forall a <- actions :: !a.ResumeStart?
  }

  lemma {:induction false} NoResumesIsOrderly(s: State, actions: seq<Action>)
    requires Runs(s, actions) && NoResumes(actions)
    ensures Orderly(s, actions)
    decreases |actions|
  {
    if actions != [] {
      assert actions[0] in actions;
      NoResumesIsOrderly(Apply(s, actions[0]), actions[1..]);
    }
  }

  lemma {:induction false} RunsOn(s: State, first: seq<Action>, second: seq<Action>)
    requires Runs(s, first) && Runs(After(s, first), second)
    ensures Runs(s, first + second) && After(s, first + second) == After(After(s, first), second)
    decreases |first|
  {
    if first == [] {
      assert first + second == second;
    } else {
      RunsOn(Apply(s, first[0]), first[1..], second);
      assert (first + second)[1..] == first[1..] + second;
    }
  }

  lemma OneStep(s: State, a: Action)
    requires Enabled(s, a)
    ensures Runs(s, [a]) && After(s, [a]) == Apply(s, a)
  {
    assert [a][1..] == [];
    assert Runs(Apply(s, a), []) && After(Apply(s, a), []) == Apply(s, a);
  }

  /** The handlers a shutdown waits for end one after the other. */
  lemma {:induction false} EndHandlers(s: State, hs: set<nat>) returns (actions: seq<Action>)
    ensures Runs(s, actions) && NoResumes(actions)
    ensures var u := After(s, actions);
      && u == s.(handlers := u.handlers) && AllDone(u, hs) && u.handlers.Keys == s.handlers.Keys
      && forall h <- s.handlers :: s.handlers[h].done ==> u.handlers[h].done
    decreases hs
  {
    if h: nat :| h in hs && h in s.handlers && !s.handlers[h].done {
      var more := EndHandlers(Apply(s, EndHandler(h)), hs - {h});
      actions := [EndHandler(h)] + more;
    } else {
      actions := [];
    }
  }

  /** A shutdown that waits for handlers can be brought to its end. */
  lemma FinishGather(s: State, x: nat) returns (actions: seq<Action>)
    requires x in s.stops && s.stops[x].Gather?
    ensures Runs(s, actions) && NoResumes(actions)
    ensures var u := After(s, actions);
      u == s.(handlers := u.handlers, tracked := u.tracked, stops := s.stops[x := Finished])
  {
    var ends := EndHandlers(s, s.stops[x].handlers);
    OneStep(After(s, ends), StopStep(x));
    RunsOn(s, ends, [StopStep(x)]);
    actions := ends + [StopStep(x)];
  }

  /** A further shutdown of a manager that has lost sight of its loop, up to its end. */
  lemma StopForgotten(t: State) returns (actions: seq<Action>)
    requires t.running && t.task == None && Phase(t).Finished?
    ensures Runs(t, actions) && NoResumes(actions)
    ensures var u := After(t, actions);
      && !u.running && u.loops == t.loops && u.next == t.next + 2 && u.stopTask == Some(t.next)
      && t.next in u.stops && u.stops[t.next].Finished?
  {
    var x := t.next;
    var called := Apply(t, CallStop(false));
    var gathering := Apply(called, StopStep(x));
    OneStep(t, CallStop(false));
    OneStep(called, StopStep(x));
    RunsOn(t, [CallStop(false)], [StopStep(x)]);
    var finish := FinishGather(gathering, x);
    RunsOn(t, [CallStop(false)] + [StopStep(x)], finish);
    actions := [CallStop(false)] + [StopStep(x)] + finish;
  }

  /** The loop it lost sight of is still live when the manager is started again. */
  lemma ForgottenDoubles(t: State, l: nat) returns (actions: seq<Action>)
    requires t.running && t.task == None && Phase(t).Finished?
    requires l in t.loops && t.loops[l].Live? && l < t.next
    ensures Runs(t, actions) && NoResumes(actions) && TwoLoops(After(t, actions))
  {
    var stop := StopForgotten(t);
    var u := After(t, stop);
    OneStep(u, CallStart);
    RunsOn(t, stop, [CallStart]);
    actions := stop + [CallStart];
    assert Apply(u, CallStart).loops[l].Live? && Apply(u, CallStart).loops[u.next].Live?;
  }

  /** The shutdown goes past its ended loop and forgets the newer one. */
  lemma LoopIsForgotten(t: State, x: nat, l: nat) returns (actions: seq<Action>)
    requires t.running && t.stopTask == Some(x) && x in t.stops && t.stops[x].AwaitLoop?
    requires Enabled(t, StopStep(x)) && l in t.loops && t.loops[l].Live? && l < t.next
    ensures Runs(t, actions) && NoResumes(actions) && TwoLoops(After(t, actions))
  {
    var gathering := Apply(t, StopStep(x));
    OneStep(t, StopStep(x));
    var finish := FinishGather(gathering, x);
    RunsOn(t, [StopStep(x)], finish);
    var u := After(gathering, finish);
    var again := ForgottenDoubles(u, l);
    RunsOn(t, [StopStep(x)] + finish, again);
    actions := [StopStep(x)] + finish + again;
  }

  /** A start that overtakes a shutdown's loop can be followed by two live loops: at once if that
      loop still lives, and otherwise after a further shutdown and a start. */
  lemma OvertakingDoubles(s: State, c: nat) returns (rest: seq<Action>)
    requires LoopInv(s) && Enabled(s, ResumeStart(c)) && Phase(s).AwaitLoop?
    ensures DoublesLoop(Apply(s, ResumeStart(c)), rest)
  {
    var t, l := Apply(s, ResumeStart(c)), Phase(s).loop;
    assert t.loops[s.next].Live? && l in s.loops && l != s.next;
    if s.loops[l].Live? {
      rest := [];
      assert t.loops[l].Live?;
    } else {
      rest := LoopIsForgotten(t, s.stopTask.value, s.next);
      NoResumesIsOrderly(t, rest);
    }
  }

  // ------------------------------------------------------------------ when a shutdown ends undrained

  /** While shutdown x is under way there is a loop that nobody has cancelled. */
  ghost predicate Unattended(s: State, x: nat) {
    && FreshOk(s) && (forall y <- s.stops :: StopOk(s, y)) && s.running
    && s.stopTask == Some(x) && x in s.stops && (s.stops[x].AwaitLoop? || s.stops[x].Gather?)
    && exists l :: l in s.loops && s.loops[l] == Live(false)
  }

  /** After `rest` the shutdown x is about to finish, and none of the shutdowns under way at `t` has. */
  ghost predicate FinishesNext(t: State, rest: seq<Action>, x: nat) {
    && Runs(t, rest) && Enabled(After(t, rest), StopStep(x)) && After(t, rest).stops[x].Gather?
    && forall y <- t.stops :: !t.stops[y].Finished? ==> !StopDone(After(t, rest), y)
  }

  lemma UnattendedStep(s: State, a: Action, x: nat)
    requires Unattended(s, x) && Enabled(s, a) && !(a == StopStep(x) && s.stops[x].Gather?)
    ensures Unattended(Apply(s, a), x)
  {
    var t := Apply(s, a);
    FreshStep(s, a);
    forall y <- t.stops ensures StopOk(t, y) { StopOkStep(s, a, y); }
    assert a.StopStep? ==> StopOk(s, a.stop);
    var l :| l in s.loops && s.loops[l] == Live(false);
    assert l in t.loops && t.loops[l] == Live(false);
  }

  lemma {:induction false} DoneStopRun(s: State, actions: seq<Action>, x: nat)
    requires FreshOk(s) && StopDone(s, x) && Runs(s, actions)
    ensures StopDone(After(s, actions), x)
    decreases |actions|
  {
    if actions != [] {
      FreshStep(s, actions[0]);
      DoneStopStays(s, actions[0], x);
      DoneStopRun(Apply(s, actions[0]), actions[1..], x);
    }
  }

  lemma {:induction false} UnattendedRun(s: State, actions: seq<Action>, x: nat)
    requires Unattended(s, x) && Runs(s, actions) && !StopDone(After(s, actions), x)
    ensures Unattended(After(s, actions), x)
    decreases |actions|
  {
    if actions != [] {
      if actions[0] == StopStep(x) && s.stops[x].Gather? {
        FreshStep(s, actions[0]);
        DoneStopRun(Apply(s, actions[0]), actions[1..], x);
      } else {
        UnattendedStep(s, actions[0], x);
        UnattendedRun(Apply(s, actions[0]), actions[1..], x);
      }
    }
  }

  /** The exact condition for draining: once a waiting start has resumed, the shutdown that finishes
      next finds every loop and handler ended, if and only if none had taken hold at that moment. */
  lemma DrainsIffNotLate(s: State, c: nat, rest: seq<Action>, x: nat)
    requires BaseInv(s) && DrainInv(s) && Enabled(s, ResumeStart(c))
    requires var t := Apply(s, ResumeStart(c));
      FinishesNext(t, rest, x) && (!Stopping(s) ==> Calm(t, rest))
    ensures Drained(Apply(After(Apply(s, ResumeStart(c)), rest), StopStep(x))) <==> !Stopping(s)
  {
    var a := ResumeStart(c);
    var t := Apply(s, a);
    var u := After(t, rest);
    BaseInvStep(s, a);
    BaseInvRun(t, rest);
    if Stopping(s) {
      var y := s.stopTask.value;
      assert t.loops[s.next] == Live(false) && Unattended(t, y);
      UnattendedRun(t, rest, y);
      assert StopOk(u, x) && StopOk(u, y);
      var l :| l in u.loops && u.loops[l] == Live(false);
      assert Apply(u, StopStep(x)).loops[l].Live?;
    } else {
      OtherStepDrains(s, a);
      DrainRun(t, rest);
      StopStepDrains(u, x);
    }
  }

  // ------------------------------------------------------------------ the failing run

  const NEW_MANAGER := State(false, None, None, map[], map[], {}, map[], map[], 0)

  /** One more step of a run; `u` spells out the state it leads to. */
  lemma Do(actions: seq<Action>, t: State, a: Action, u: State) returns (more: seq<Action>, v: State)
    requires Runs(NEW_MANAGER, actions) && After(NEW_MANAGER, actions) == t && Enabled(t, a) && Apply(t, a) == u
    ensures more == actions + [a] && v == u && Runs(NEW_MANAGER, more) && After(NEW_MANAGER, more) == v
  {
    OneStep(t, a);
    RunsOn(NEW_MANAGER, actions, [a]);
    more, v := actions + [a], u;
  }

  lemma CancelNone(s: State, stop: nat)
    requires s.handlers == map[] && s.tracked == {}
    ensures CancelTracked(s, stop) == s.(stops := s.stops[stop := Gather({})])
  {
    assert CancelTracked(s, stop).handlers == s.handlers;
  }

  /** A shutdown runs to its end while a start waits for it. */
  lemma FirstShutdown() returns (actions: seq<Action>, t: State)
    ensures Runs(NEW_MANAGER, actions) && After(NEW_MANAGER, actions) == t
    ensures t ==
        State(false, None, Some(1), map[0 := Ended], map[], {}, map[1 := Finished],
              map[2 := AwaitStop(1, false), 3 := AwaitToStart(1)], 4)
  {
    actions, t := [], NEW_MANAGER;
    actions, t := Do(actions, t, CallStart,
        State(true, Some(0), None, map[0 := Live(false)], map[], {}, map[], map[], 1));
    actions, t := Do(actions, t, CallStop(false),
        State(true, Some(0), Some(1), map[0 := Live(false)], map[], {}, map[1 := Begin],
              map[2 := AwaitStop(1, false)], 3));
    actions, t := Do(actions, t, CallStart,
        State(true, Some(0), Some(1), map[0 := Live(false)], map[], {}, map[1 := Begin],
              map[2 := AwaitStop(1, false), 3 := AwaitToStart(1)], 4));
    actions, t := Do(actions, t, StopStep(1),
        State(false, Some(0), Some(1), map[0 := Live(true)], map[], {}, map[1 := AwaitLoop(0)],
              map[2 := AwaitStop(1, false), 3 := AwaitToStart(1)], 4));
    actions, t := Do(actions, t, EndLoop(0),
        State(false, Some(0), Some(1), map[0 := Ended], map[], {}, map[1 := AwaitLoop(0)],
              map[2 := AwaitStop(1, false), 3 := AwaitToStart(1)], 4));
    CancelNone(t.(task := None), 1);
    actions, t := Do(actions, t, StopStep(1),
        State(false, None, Some(1), map[0 := Ended], map[], {}, map[1 := Gather({})],
              map[2 := AwaitStop(1, false), 3 := AwaitToStart(1)], 4));
    actions, t := Do(actions, t, StopStep(1),
        State(false, None, Some(1), map[0 := Ended], map[], {}, map[1 := Finished],
              map[2 := AwaitStop(1, false), 3 := AwaitToStart(1)], 4));
  }

  /** The manager is started once more, and a second shutdown waits for its loop. */
  lemma SecondShutdown() returns (actions: seq<Action>, t: State)
    ensures Runs(NEW_MANAGER, actions) && After(NEW_MANAGER, actions) == t
    ensures t ==
        State(false, Some(4), Some(5), map[0 := Ended, 4 := Live(true)], map[], {},
              map[1 := Finished, 5 := AwaitLoop(4)],
              map[2 := AwaitStop(1, false), 3 := AwaitToStart(1), 6 := AwaitStop(5, false)], 7)
  {
    actions, t := FirstShutdown();
    actions, t := Do(actions, t, CallStart,
        State(true, Some(4), Some(1), map[0 := Ended, 4 := Live(false)], map[], {}, map[1 := Finished],
              map[2 := AwaitStop(1, false), 3 := AwaitToStart(1)], 5));
    actions, t := Do(actions, t, CallStop(false),
        State(true, Some(4), Some(5), map[0 := Ended, 4 := Live(false)], map[], {},
              map[1 := Finished, 5 := Begin],
              map[2 := AwaitStop(1, false), 3 := AwaitToStart(1), 6 := AwaitStop(5, false)], 7));
    actions, t := Do(actions, t, StopStep(5),
        State(false, Some(4), Some(5), map[0 := Ended, 4 := Live(true)], map[], {},
              map[1 := Finished, 5 := AwaitLoop(4)],
              map[2 := AwaitStop(1, false), 3 := AwaitToStart(1), 6 := AwaitStop(5, false)], 7));
  }

  /** The waiting start resumes while a second shutdown waits for its loop: two loops are live. */
  lemma LateStartRun() returns (actions: seq<Action>, t: State)
    ensures Runs(NEW_MANAGER, actions) && After(NEW_MANAGER, actions) == t
    ensures t ==
        State(true, Some(7), Some(5), map[0 := Ended, 4 := Live(true), 7 := Live(false)], map[], {},
              map[1 := Finished, 5 := AwaitLoop(4)],
              map[2 := AwaitStop(1, false), 3 := Returned, 6 := AwaitStop(5, false)], 8)
    ensures TwoLoops(t)
  {
    actions, t := SecondShutdown();
    actions, t := Do(actions, t, ResumeStart(3),
        State(true, Some(7), Some(5), map[0 := Ended, 4 := Live(true), 7 := Live(false)], map[], {},
              map[1 := Finished, 5 := AwaitLoop(4)],
              map[2 := AwaitStop(1, false), 3 := Returned, 6 := AwaitStop(5, false)], 8));
    assert t.loops[4].Live? && t.loops[7].Live?;
  }

  /** The second shutdown goes past its loop and forgets the newer one. */
  lemma LoopForgotten() returns (actions: seq<Action>, t: State)
    ensures Runs(NEW_MANAGER, actions) && After(NEW_MANAGER, actions) == t
    ensures t ==
        State(true, None, Some(5), map[0 := Ended, 4 := Ended, 7 := Live(false)], map[], {},
              map[1 := Finished, 5 := Gather({})],
              map[2 := AwaitStop(1, false), 3 := Returned, 6 := AwaitStop(5, false)], 8)
  {
    actions, t := LateStartRun();
    actions, t := Do(actions, t, EndLoop(4),
        State(true, Some(7), Some(5), map[0 := Ended, 4 := Ended, 7 := Live(false)], map[], {},
              map[1 := Finished, 5 := AwaitLoop(4)],
              map[2 := AwaitStop(1, false), 3 := Returned, 6 := AwaitStop(5, false)], 8));
    CancelNone(t.(task := None), 5);
    actions, t := Do(actions, t, StopStep(5),
        State(true, None, Some(5), map[0 := Ended, 4 := Ended, 7 := Live(false)], map[], {},
              map[1 := Finished, 5 := Gather({})],
              map[2 := AwaitStop(1, false), 3 := Returned, 6 := AwaitStop(5, false)], 8));
  }

  /** The second shutdown ends without the loop that started during it. */
  lemma LoopSurvives() returns (actions: seq<Action>, t: State)
    ensures Runs(NEW_MANAGER, actions) && After(NEW_MANAGER, actions) == t
    ensures t ==
        State(true, None, Some(5), map[0 := Ended, 4 := Ended, 7 := Live(false)], map[], {},
              map[1 := Finished, 5 := Finished],
              map[2 := AwaitStop(1, false), 3 := Returned, 6 := AwaitStop(5, false)], 8)
  {
    actions, t := LoopForgotten();
    actions, t := Do(actions, t, StopStep(5),
        State(true, None, Some(5), map[0 := Ended, 4 := Ended, 7 := Live(false)], map[], {},
              map[1 := Finished, 5 := Finished],
              map[2 := AwaitStop(1, false), 3 := Returned, 6 := AwaitStop(5, false)], 8));
  }

  /** That loop survives one more shutdown, whose caller returns while the loop is live. */
  lemma LateStartEscapesStop() returns (actions: seq<Action>, t: State)
    ensures Runs(NEW_MANAGER, actions) && After(NEW_MANAGER, actions) == t
    ensures !t.running && Phase(t).Finished? && !Drained(t)
  {
    actions, t := LoopSurvives();
    actions, t := Do(actions, t, CallStop(false),
        State(true, None, Some(8), map[0 := Ended, 4 := Ended, 7 := Live(false)], map[], {},
              map[1 := Finished, 5 := Finished, 8 := Begin],
              map[2 := AwaitStop(1, false), 3 := Returned, 6 := AwaitStop(5, false),
                  9 := AwaitStop(8, false)], 10));
    CancelNone(t.(running := false), 8);
    actions, t := Do(actions, t, StopStep(8),
        State(false, None, Some(8), map[0 := Ended, 4 := Ended, 7 := Live(false)], map[], {},
              map[1 := Finished, 5 := Finished, 8 := Gather({})],
              map[2 := AwaitStop(1, false), 3 := Returned, 6 := AwaitStop(5, false),
                  9 := AwaitStop(8, false)], 10));
    actions, t := Do(actions, t, StopStep(8),
        State(false, None, Some(8), map[0 := Ended, 4 := Ended, 7 := Live(false)], map[], {},
              map[1 := Finished, 5 := Finished, 8 := Finished],
              map[2 := AwaitStop(1, false), 3 := Returned, 6 := AwaitStop(5, false),
                  9 := AwaitStop(8, false)], 10));
    assert t.loops[7].Live?;
  }
}
