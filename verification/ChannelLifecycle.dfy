/** Keeping one instance of each channel running (ChannelService.ensure_channel_ready,
    _start_channel and stop in backend/app/channels/service.py).

    Calls that ensure a channel hold the channel's lock while they stop a dead instance and
    start new ones; stopping the service drains the manager, closes the registered
    instances and then empties the registry. Everything between two awaits is one step. */
module ChannelLifecycle {
  import opened Options

  type Name = string

  datatype Pc =
    | Waiting
    | Stopping(dead: nat)
    | Starting(instance: nat)
    | Returned(ready: bool)
  {
    predicate Holds() { Stopping? || Starting? }
    predicate Inside() { !Returned? }
  }

  datatype Call = Call(name: Name, left: nat, pc: Pc)

  datatype StopPc = Draining | Closing(rest: set<nat>) | Ended

  /** `live` has the instances whose transport runs; `holder` the call holding each lock. */
  datatype State = State(
    running: bool,
    channels: map<Name, nat>,
    names: map<nat, Name>,
    live: set<nat>,
    holder: map<Name, nat>,
    calls: map<nat, Call>,
    stops: map<nat, StopPc>,
    next: nat)

  datatype Action =
    | Ensure(name: Name, attempts: nat)
    | Enter(call: nat, enabled: bool)
    | OldStopped(call: nat)
    | GoLive(call: nat)
    | StartEnds(call: nat, raised: bool)
    | Cancel(call: nat)
    | Die(instance: nat)
    | StartService
    | StopService
    | Drained(stop: nat)
    | CloseOne(stop: nat, instance: nat, fails: bool)
    | Clear(stop: nat)

  predicate Enabled(s: State, a: Action) {
    match a
    case Ensure(_, _) => true
    case Enter(c, _) => c in s.calls && s.calls[c].pc.Waiting? && s.calls[c].name !in s.holder
    case OldStopped(c) => c in s.calls && s.calls[c].pc.Stopping?
    case GoLive(c) => c in s.calls && s.calls[c].pc.Starting?
    case StartEnds(c, _) => c in s.calls && s.calls[c].pc.Starting?
    case Cancel(c) => c in s.calls && s.calls[c].pc.Inside()
    case Die(i) => i in s.live
    case StartService => !s.running
    case StopService => true
    case Drained(x) => x in s.stops && s.stops[x].Draining?
    case CloseOne(x, i, _) => x in s.stops && s.stops[x].Closing? && i in s.stops[x].rest
    case Clear(x) => x in s.stops && s.stops[x].Closing? && s.stops[x].rest == {}
  }

  /** A new instance is registered, and its start begins. */
  function Launch(s: State, c: nat): State
    requires c in s.calls
  {
    var call := s.calls[c];
    s.(channels := s.channels[call.name := s.next],
       names := s.names[s.next := call.name],
       holder := s.holder[call.name := c],
       calls := s.calls[c := Call(call.name, if call.left == 0 then 0 else call.left - 1, Starting(s.next))],
       next := s.next + 1)
  }

  function Return(s: State, c: nat, ready: bool): State
    requires c in s.calls
  {
    var call := s.calls[c];
    s.(holder := if call.pc.Holds() then s.holder - {call.name} else s.holder,
       calls := s.calls[c := call.(pc := Returned(ready))])
  }

  function AfterEnter(s: State, c: nat, enabled: bool): State
    requires c in s.calls
  {
    var call := s.calls[c];
    if !enabled then Return(s, c, false)
    else if call.name !in s.channels then Launch(s, c)
    else if s.channels[call.name] in s.live then Return(s, c, true)
    else s.(holder := s.holder[call.name := c], calls := s.calls[c := call.(pc := Stopping(s.channels[call.name]))])
  }

  function AfterStart(s: State, c: nat, raised: bool): State
    requires c in s.calls && s.calls[c].pc.Starting?
  {
    var call := s.calls[c];
    var popped := s.(channels := s.channels - {call.name});
    if !raised && call.pc.instance in s.live then Return(s, c, true)
    else if call.left > 0 then Launch(popped, c)
    else Return(popped, c, false)
  }

  function Apply(s: State, a: Action): State
    requires Enabled(s, a)
  {
    match a
    case Ensure(name, attempts) =>
      var call := Call(name, if attempts == 0 then 1 else attempts, if s.running then Waiting else Returned(false));
      s.(calls := s.calls[s.next := call], next := s.next + 1)
    case Enter(c, enabled) => AfterEnter(s, c, enabled)
    case OldStopped(c) => Launch(s.(channels := s.channels - {s.calls[c].name}), c)
    case GoLive(c) => s.(live := s.live + {s.calls[c].pc.instance})
    case StartEnds(c, raised) => AfterStart(s, c, raised)
    case Cancel(c) => Return(s, c, false)
    case Die(i) => s.(live := s.live - {i})
    case StartService => s.(running := true)
    case StopService => s.(running := false, stops := s.stops[s.next := Draining], next := s.next + 1)
    case Drained(x) => s.(stops := s.stops[x := Closing(s.channels.Values)])
    case CloseOne(x, i, fails) =>
      s.(stops := s.stops[x := Closing(s.stops[x].rest - {i})], live := if fails then s.live else s.live - {i})
    case Clear(x) => s.(channels := map[], stops := s.stops[x := Ended])
  }

  predicate Initial(s: State) {
    s == State(false, map[], map[], {}, map[], map[], map[], 0)
  }

  predicate Runs(s: State, actions: seq<Action>)
    decreases |actions|
  {
    actions == [] || (Enabled(s, actions[0]) && Runs(Apply(s, actions[0]), actions[1..]))
  }

  function After(s: State, actions: seq<Action>): State
    requires Runs(s, actions)
    decreases |actions|
  {
    if actions == [] then s else After(Apply(s, actions[0]), actions[1..])
  }

  // ------------------------------------------------------------------ calm runs

  predicate Busy(s: State) {
    exists c <- s.calls :: s.calls[c].pc.Inside()
  }

  predicate Halting(s: State) {
    exists x <- s.stops :: !s.stops[x].Ended?
  }

  /** Channels keep their word: a start that raises leaves nothing running, a close closes. */
  predicate Honest(s: State, a: Action)
    requires Enabled(s, a)
  {
    match a
    case StartEnds(c, raised) => raised ==> s.calls[c].pc.instance !in s.live
    case CloseOne(_, i, fails) => fails ==> i !in s.live
    case _ => true
  }

  /** The service is stopped only while no call is inside, and not started again before the stop is over. */
  predicate Calm(s: State, a: Action) {
    && (a.StopService? ==> !Busy(s))
    && (a.StartService? ==> !Halting(s))
  }

  predicate HonestRun(s: State, actions: seq<Action>)
    requires Runs(s, actions)
    decreases |actions|
  {
    actions == [] || (Honest(s, actions[0]) && HonestRun(Apply(s, actions[0]), actions[1..]))
  }

  predicate CalmRun(s: State, actions: seq<Action>)
    requires Runs(s, actions)
    decreases |actions|
  {
    actions == [] || (Calm(s, actions[0]) && CalmRun(Apply(s, actions[0]), actions[1..]))
  }

  // ------------------------------------------------------------------ the invariant

  ghost predicate Registered(s: State, i: nat, name: Name) {
    i in s.names && s.names[i] == name && name in s.channels && s.channels[name] == i
  }

  ghost predicate CallOk(s: State, c: nat)
    requires c in s.calls
  {
    var call := s.calls[c];
    && c < s.next
    && (call.pc.Holds() ==> call.name in s.holder && s.holder[call.name] == c)
    && (call.pc.Stopping? ==> Registered(s, call.pc.dead, call.name) && call.pc.dead !in s.live)
    && (call.pc.Starting? ==> Registered(s, call.pc.instance, call.name))
  }

  ghost predicate HolderOk(s: State, name: Name)
    requires name in s.holder
  {
    var c := s.holder[name];
    c in s.calls && s.calls[c].pc.Holds() && s.calls[c].name == name
  }

  ghost predicate ChannelOk(s: State, name: Name)
    requires name in s.channels
  {
    Registered(s, s.channels[name], name)
  }

  /** Whatever runs is registered under its name. */
  ghost predicate LiveOk(s: State, i: nat) {
    i in s.names && Registered(s, i, s.names[i])
  }

  ghost predicate StopOk(s: State, x: nat)
    requires x in s.stops
  {
    && x < s.next
    && (!s.stops[x].Ended? ==> !s.running && !Busy(s))
    && (s.stops[x].Closing? ==> s.live <= s.stops[x].rest)
  }

  ghost predicate TablesOk(s: State) {
    && (forall c <- s.calls :: CallOk(s, c))
    && (forall name <- s.holder :: HolderOk(s, name))
    && (forall name <- s.channels :: ChannelOk(s, name))
    && (forall i <- s.names :: i < s.next)
  }

  ghost predicate Inv(s: State) {
    && TablesOk(s)
    && (forall i <- s.live :: LiveOk(s, i))
    && (forall x <- s.stops :: StopOk(s, x))
  }

  function ActorOf(a: Action): Option<nat> {
    match a
    case Enter(c, _) => Some(c)
    case OldStopped(c) => Some(c)
    case GoLive(c) => Some(c)
    case StartEnds(c, _) => Some(c)
    case Cancel(c) => Some(c)
    case _ => None
  }

  /** The call a step belongs to is as it should be. */
  ghost predicate ActorOk(s: State, a: Action) {
    ActorOf(a).Some? && ActorOf(a).value in s.calls ==> CallOk(s, ActorOf(a).value)
  }

  lemma EnterOthers(s: State, c: nat, enabled: bool, d: nat)
    requires c in s.calls && d in s.calls && d != c
    ensures d in AfterEnter(s, c, enabled).calls && AfterEnter(s, c, enabled).calls[d] == s.calls[d]
  {
  }

  lemma StartOthers(s: State, c: nat, raised: bool, d: nat)
    requires c in s.calls && s.calls[c].pc.Starting? && d in s.calls && d != c
    ensures d in AfterStart(s, c, raised).calls && AfterStart(s, c, raised).calls[d] == s.calls[d]
  {
  }

  lemma OtherCalls(s: State, a: Action, c: nat)
    requires Enabled(s, a) && c in s.calls && c < s.next && ActorOf(a) != Some(c)
    ensures c in Apply(s, a).calls && Apply(s, a).calls[c] == s.calls[c]
  {
    match a {
      case Enter(d, enabled) => EnterOthers(s, d, enabled, c);
      case StartEnds(d, raised) => StartOthers(s, d, raised, c);
      case _ =>
    }
  }

  lemma EnterOtherHolders(s: State, c: nat, enabled: bool, name: Name)
    requires c in s.calls && name in s.holder && s.calls[c].name != name
    ensures name in AfterEnter(s, c, enabled).holder && AfterEnter(s, c, enabled).holder[name] == s.holder[name]
  {
  }

  lemma StartOtherHolders(s: State, c: nat, raised: bool, name: Name)
    requires c in s.calls && s.calls[c].pc.Starting? && name in s.holder && s.calls[c].name != name
    ensures name in AfterStart(s, c, raised).holder && AfterStart(s, c, raised).holder[name] == s.holder[name]
  {
  }

  /** A step changes the lock of one name only. */
  lemma OtherHolders(s: State, a: Action, name: Name)
    requires Enabled(s, a) && name in s.holder
    requires ActorOf(a).Some? ==> s.calls[ActorOf(a).value].name != name || (a.Cancel? && s.calls[a.call].pc.Waiting?)
    ensures name in Apply(s, a).holder && Apply(s, a).holder[name] == s.holder[name]
  {
    match a {
      case Enter(c, enabled) => EnterOtherHolders(s, c, enabled, name);
      case StartEnds(c, raised) => StartOtherHolders(s, c, raised, name);
      case _ =>
    }
  }

  lemma OtherChannels(s: State, a: Action, name: Name)
    requires Enabled(s, a) && name in s.channels && !a.Clear?
    requires ActorOf(a).Some? ==> s.calls[ActorOf(a).value].name != name || (a.Cancel? && s.calls[a.call].pc.Waiting?)
    ensures name in Apply(s, a).channels && Apply(s, a).channels[name] == s.channels[name]
  {
  }

  lemma OtherName(s: State, a: Action, c: nat)
    requires Enabled(s, a) && c in s.calls && ActorOf(a).Some? && ActorOf(a) != Some(c) && ActorOk(s, a)
    requires s.calls[c].name in s.holder && s.holder[s.calls[c].name] == c
    ensures s.calls[ActorOf(a).value].name != s.calls[c].name || (a.Cancel? && s.calls[a.call].pc.Waiting?)
  {
  }

  lemma NamesGrow(s: State, a: Action, i: nat)
    requires Enabled(s, a) && i in s.names && i < s.next
    ensures i in Apply(s, a).names && Apply(s, a).names[i] == s.names[i]
    ensures i in Apply(s, a).live ==> i in s.live || (a.GoLive? && i == s.calls[a.call].pc.instance)
  {
  }

  lemma OtherCallOk(s: State, a: Action, c: nat)
    requires Enabled(s, a) && c in s.calls && CallOk(s, c) && ActorOf(a) != Some(c) && ActorOk(s, a)
    requires forall i <- s.names :: i < s.next
    requires a.Clear? ==> !s.calls[c].pc.Holds()
    ensures c in Apply(s, a).calls && CallOk(Apply(s, a), c)
  {
    OtherCalls(s, a, c);
    if s.calls[c].pc.Holds() {
      if ActorOf(a).Some? { OtherName(s, a, c); }
      OtherHolders(s, a, s.calls[c].name);
      OtherChannels(s, a, s.calls[c].name);
      NamesGrow(s, a, if s.calls[c].pc.Stopping? then s.calls[c].pc.dead else s.calls[c].pc.instance);
    }
  }

  lemma EnterCallOk(s: State, c: nat, enabled: bool)
    requires c in s.calls && CallOk(s, c) && s.calls[c].pc.Waiting?
    requires s.calls[c].name in s.channels ==> ChannelOk(s, s.calls[c].name)
    ensures CallOk(AfterEnter(s, c, enabled), c)
  {
  }

  lemma StartCallOk(s: State, c: nat, raised: bool)
    requires c in s.calls && CallOk(s, c) && s.calls[c].pc.Starting?
    ensures CallOk(AfterStart(s, c, raised), c)
  {
  }

  lemma OwnCallOk(s: State, a: Action, c: nat)
    requires Enabled(s, a) && c in s.calls && CallOk(s, c) && ActorOf(a) == Some(c)
    requires s.calls[c].name in s.channels ==> ChannelOk(s, s.calls[c].name)
    ensures c in Apply(s, a).calls && CallOk(Apply(s, a), c)
  {
    match a {
      case Enter(_, enabled) => EnterCallOk(s, c, enabled);
      case StartEnds(_, raised) => StartCallOk(s, c, raised);
      case _ =>
    }
  }

  lemma LaunchChannels(s: State, c: nat, name: Name)
    requires c in s.calls && name in Launch(s, c).channels
    requires name in s.channels ==> ChannelOk(s, name)
    requires forall i <- s.names :: i < s.next
    ensures ChannelOk(Launch(s, c), name)
  {
  }

  lemma ChannelOkStep(s: State, a: Action, name: Name)
    requires Enabled(s, a) && name in Apply(s, a).channels
    requires name in s.channels ==> ChannelOk(s, name)
    requires forall i <- s.names :: i < s.next
    ensures ChannelOk(Apply(s, a), name)
  {
    match a {
      case Enter(c, enabled) =>
        if enabled && s.calls[c].name !in s.channels { LaunchChannels(s, c, name); }
      case OldStopped(c) => LaunchChannels(s.(channels := s.channels - {s.calls[c].name}), c, name);
      case StartEnds(c, raised) =>
        if (raised || s.calls[c].pc.instance !in s.live) && s.calls[c].left > 0 {
          LaunchChannels(s.(channels := s.channels - {s.calls[c].name}), c, name);
        }
      case _ =>
    }
  }

  /** Every lock held after a step was held before, or is the actor's now. */
  lemma HoldersFrom(s: State, a: Action, name: Name)
    requires Enabled(s, a) && name in Apply(s, a).holder
    ensures (name in s.holder && Apply(s, a).holder[name] == s.holder[name])
      || (ActorOf(a).Some? && s.calls[ActorOf(a).value].name == name && Apply(s, a).holder[name] == ActorOf(a).value)
  {
    if a.StartEnds? { StartHolders(s, a.call, a.raised, name); }
  }

  lemma StartHolders(s: State, c: nat, raised: bool, name: Name)
    requires c in s.calls && s.calls[c].pc.Starting? && name in AfterStart(s, c, raised).holder
    ensures var t := AfterStart(s, c, raised);
      (name in s.holder && t.holder[name] == s.holder[name]) || (s.calls[c].name == name && t.holder[name] == c)
  {
  }

  lemma StartHolds(s: State, c: nat, raised: bool)
    requires c in s.calls && s.calls[c].pc.Starting?
    ensures s.calls[c].name in AfterStart(s, c, raised).holder ==> HolderOk(AfterStart(s, c, raised), s.calls[c].name)
  {
  }

  lemma OwnHolderOk(s: State, a: Action, c: nat)
    requires Enabled(s, a) && ActorOf(a) == Some(c)
    requires s.calls[c].name in Apply(s, a).holder && Apply(s, a).holder[s.calls[c].name] == c
    requires s.calls[c].name in s.holder && s.holder[s.calls[c].name] == c ==> s.calls[c].pc.Holds()
    ensures HolderOk(Apply(s, a), s.calls[c].name)
  {
    if a.StartEnds? { StartHolds(s, c, a.raised); }
  }

  lemma HolderOkStep(s: State, a: Action, name: Name)
    requires Enabled(s, a) && name in Apply(s, a).holder
    requires name in s.holder ==> HolderOk(s, name) && s.holder[name] < s.next
    ensures HolderOk(Apply(s, a), name)
  {
    HoldersFrom(s, a, name);
    var c := Apply(s, a).holder[name];
    if ActorOf(a) == Some(c) { OwnHolderOk(s, a, c); } else { OtherCalls(s, a, c); }
  }

  /** A step takes a running instance out of the registry only if the registry is cleared. */
  lemma LiveStaysRegistered(s: State, a: Action, i: nat)
    requires Enabled(s, a) && Honest(s, a) && ActorOk(s, a) && !a.Clear?
    requires i in s.live && LiveOk(s, i)
    ensures s.names[i] in Apply(s, a).channels && Apply(s, a).channels[s.names[i]] == i
  {
    if ActorOf(a).Some? && s.calls[ActorOf(a).value].name == s.names[i] {
      OwnNameStays(s, a, i);
    } else {
      OtherChannels(s, a, s.names[i]);
    }
  }

  lemma OwnNameStays(s: State, a: Action, i: nat)
    requires Enabled(s, a) && Honest(s, a) && ActorOk(s, a) && ActorOf(a).Some?
    requires i in s.live && s.calls[ActorOf(a).value].name in s.channels
        && s.channels[s.calls[ActorOf(a).value].name] == i
    ensures var name := s.calls[ActorOf(a).value].name;
      name in Apply(s, a).channels && Apply(s, a).channels[name] == i
  {
  }

  lemma LiveOkStep(s: State, a: Action, i: nat)
    requires Enabled(s, a) && i in Apply(s, a).live && Honest(s, a) && ActorOk(s, a)
    requires i in s.live ==> LiveOk(s, i) && i < s.next
    requires a.Clear? ==> i !in s.live
    ensures LiveOk(Apply(s, a), i)
  {
    if i in s.live {
      LiveStaysRegistered(s, a, i);
      NamesGrow(s, a, i);
    } else {
      LiveSince(s, a, i);
    }
  }

  lemma LiveSince(s: State, a: Action, i: nat)
    requires Enabled(s, a) && i in Apply(s, a).live && i !in s.live && ActorOk(s, a)
    ensures LiveOk(Apply(s, a), i)
  {
  }

  lemma BusyStep(s: State, a: Action)
    requires Enabled(s, a) && !Busy(s) && (s.running ==> !a.Ensure?)
    ensures !Busy(Apply(s, a))
  {
  }

  lemma StopOkStep(s: State, a: Action, x: nat)
    requires Enabled(s, a) && x in Apply(s, a).stops && Honest(s, a) && Calm(s, a)
    requires x in s.stops ==> StopOk(s, x)
    requires forall i <- s.live :: LiveOk(s, i)
    ensures StopOk(Apply(s, a), x)
  {
    if !Busy(s) && !s.running { BusyStep(s, a); }
  }

  lemma TablesStep(s: State, a: Action)
    requires TablesOk(s) && Enabled(s, a) && (a.Clear? ==> !Busy(s))
    ensures TablesOk(Apply(s, a))
  {
    var t := Apply(s, a);
    forall c <- t.calls ensures CallOk(t, c) {
      if c in s.calls {
        assert CallOk(s, c);
        if ActorOf(a) == Some(c) { OwnCallOk(s, a, c); } else { OtherCallOk(s, a, c); }
      }
    }
    forall name <- t.holder ensures HolderOk(t, name) {
      if name in s.holder { assert HolderOk(s, name) && CallOk(s, s.holder[name]); }
      HolderOkStep(s, a, name);
    }
    forall name <- t.channels ensures ChannelOk(t, name) { ChannelOkStep(s, a, name); }
    NamesBelow(s, a);
  }

  lemma InvStep(s: State, a: Action)
    requires Inv(s) && Enabled(s, a) && Honest(s, a) && Calm(s, a)
    ensures Inv(Apply(s, a))
  {
    var t := Apply(s, a);
    assert a.Clear? ==> StopOk(s, a.stop);
    TablesStep(s, a);
    forall i <- t.live ensures LiveOk(t, i) {
      if i in s.live { assert LiveOk(s, i); }
      LiveOkStep(s, a, i);
    }
    forall x <- t.stops ensures StopOk(t, x) { StopOkStep(s, a, x); }
  }

  lemma OnlyEnsureCalls(s: State, a: Action, c: nat)
    requires Enabled(s, a) && c in Apply(s, a).calls && c !in s.calls
    ensures a.Ensure? && c == s.next
  {
  }

  lemma NamesBelow(s: State, a: Action)
    requires Enabled(s, a) && forall i <- s.names :: i < s.next
    ensures forall i <- Apply(s, a).names :: i < Apply(s, a).next
  {
  }

  lemma {:induction false} RunInv(s: State, actions: seq<Action>)
    requires Inv(s) && Runs(s, actions) && HonestRun(s, actions) && CalmRun(s, actions)
    ensures Inv(After(s, actions))
    decreases |actions|
  {
    if actions != [] {
      InvStep(s, actions[0]);
      RunInv(Apply(s, actions[0]), actions[1..]);
    }
  }

  /** In every calm run, whatever runs is the registered instance of its name; so no name has two. */
  lemma SingleInstance(s: State, actions: seq<Action>, i: nat)
    requires Initial(s) && Runs(s, actions) && HonestRun(s, actions) && CalmRun(s, actions)
    requires i in After(s, actions).live
    ensures var t := After(s, actions);
      && i in t.names && Registered(t, i, t.names[i])
      && forall j <- t.live :: j in t.names && (t.names[j] == t.names[i] ==> j == i)
  {
    RunInv(s, actions);
    var t := After(s, actions);
    assert LiveOk(t, i);
    forall j <- t.live ensures j in t.names && (t.names[j] == t.names[i] ==> j == i) { assert LiveOk(t, j); }
  }

  lemma EnterReady(s: State, c: nat, enabled: bool)
    requires c in s.calls && s.calls[c].pc.Waiting? && AfterEnter(s, c, enabled).calls[c].pc == Returned(true)
    ensures var t, name := AfterEnter(s, c, enabled), s.calls[c].name; name in t.channels && t.channels[name] in t.live
  {
  }

  lemma StartReady(s: State, c: nat, raised: bool)
    requires c in s.calls && s.calls[c].pc.Starting? && CallOk(s, c)
    requires AfterStart(s, c, raised).calls[c].pc == Returned(true)
    ensures var t, name := AfterStart(s, c, raised), s.calls[c].name; name in t.channels && t.channels[name] in t.live
  {
  }

  lemma OwnReadyIsLive(s: State, a: Action, c: nat)
    requires Enabled(s, a) && ActorOf(a) == Some(c) && c in s.calls && CallOk(s, c) && s.calls[c].pc.Inside()
    ensures Apply(s, a).calls[c].pc == Returned(true) ==>
      var t, name := Apply(s, a), s.calls[c].name; name in t.channels && t.channels[name] in t.live
  {
    if Apply(s, a).calls[c].pc == Returned(true) {
      match a {
        case Enter(_, enabled) => EnterReady(s, c, enabled);
        case StartEnds(_, raised) => StartReady(s, c, raised);
        case _ =>
      }
    }
  }

  /** A call returns true only while the registered instance of its channel runs. */
  lemma ReadyIsLive(s: State, a: Action, c: nat)
    requires Inv(s) && Enabled(s, a) && c in s.calls && s.calls[c].pc.Inside()
    requires c in Apply(s, a).calls && Apply(s, a).calls[c].pc == Returned(true)
    ensures var t, name := Apply(s, a), s.calls[c].name; name in t.channels && t.channels[name] in t.live
  {
    assert CallOk(s, c);
    if ActorOf(a) == Some(c) { OwnReadyIsLive(s, a, c); } else { OtherCalls(s, a, c); }
  }

  /** Just when a call answers, and what. True: it enters while its channel runs already, or the instance it
      has started does. False: the channel is disabled, the call is cancelled, or its last start fails. */
  lemma AnswersIff(s: State, a: Action, c: nat)
    requires Enabled(s, a) && c in s.calls && c < s.next && s.calls[c].pc.Inside()
    ensures c in Apply(s, a).calls
    ensures Apply(s, a).calls[c].pc == Returned(true) <==>
      || (a == Enter(c, true) && s.calls[c].name in s.channels && s.channels[s.calls[c].name] in s.live)
      || (a == StartEnds(c, false) && s.calls[c].pc.instance in s.live)
    ensures Apply(s, a).calls[c].pc == Returned(false) <==>
      || a == Enter(c, false)
      || a == Cancel(c)
      || (a.StartEnds? && a.call == c && (a.raised || s.calls[c].pc.instance !in s.live) && s.calls[c].left == 0)
  {
    if ActorOf(a) != Some(c) {
      OtherCalls(s, a, c);
    } else if a.StartEnds? {
      StartAnswers(s, c, a.raised);
    }
  }

  lemma StartAnswers(s: State, c: nat, raised: bool)
    requires c in s.calls && s.calls[c].pc.Starting?
    ensures var pc := AfterStart(s, c, raised).calls[c].pc; var runs := !raised && s.calls[c].pc.instance in s.live;
      && (pc == Returned(true) <==> runs)
      && (pc == Returned(false) <==> !runs && s.calls[c].left == 0)
  {
  }

  // ------------------------------------------------------------------ how often a call tries

  /** How many starts of call c have ended. */
  function Starts(actions: seq<Action>, c: nat): nat {
    if actions == [] then 0
    else (if actions[0].StartEnds? && actions[0].call == c then 1 else 0) + Starts(actions[1..], c)
  }

  /** The starts the call still has. */
  function StartsLeft(call: Call): nat {
    if call.pc.Returned? then 0 else call.left + if call.pc.Starting? then 1 else 0
  }

  predicate Willing(call: Call) {
    call.pc.Waiting? || call.pc.Stopping? ==> call.left > 0
  }

  lemma TriesStep(s: State, a: Action, c: nat)
    requires Enabled(s, a) && c in s.calls && c < s.next && s.calls[c].pc.Inside() && Willing(s.calls[c])
    ensures c in Apply(s, a).calls && c < Apply(s, a).next && Willing(Apply(s, a).calls[c])
    ensures Apply(s, a).calls[c].pc.Inside() ==>
      StartsLeft(s.calls[c]) == StartsLeft(Apply(s, a).calls[c]) + if a.StartEnds? && a.call == c then 1 else 0
  {
    if ActorOf(a) != Some(c) { OtherCalls(s, a, c); }
  }

  lemma {:induction false} AnswerStays(s: State, actions: seq<Action>, c: nat)
    requires Runs(s, actions) && c in s.calls && c < s.next && s.calls[c].pc.Returned?
    ensures c in After(s, actions).calls && After(s, actions).calls[c] == s.calls[c]
    ensures Starts(actions, c) == 0
    decreases |actions|
  {
    if actions != [] {
      OtherCalls(s, actions[0], c);
      AnswerStays(Apply(s, actions[0]), actions[1..], c);
    }
  }

  /** A call inside makes just the starts it has left, unless it is told to stop before. */
  lemma {:induction false} TriesRun(s: State, actions: seq<Action>, c: nat)
    requires Runs(s, actions) && c in s.calls && c < s.next && s.calls[c].pc.Inside() && Willing(s.calls[c])
    ensures c in After(s, actions).calls && Starts(actions, c) <= StartsLeft(s.calls[c])
    ensures After(s, actions).calls[c].pc == Returned(false) ==>
      Enter(c, false) in actions || Cancel(c) in actions || Starts(actions, c) == StartsLeft(s.calls[c])
    decreases |actions|
  {
    if actions != [] {
      var t := Apply(s, actions[0]);
      TriesStep(s, actions[0], c);
      AnswersIff(s, actions[0], c);
      if t.calls[c].pc.Returned? {
        AnswerStays(t, actions[1..], c);
      } else {
        TriesRun(t, actions[1..], c);
      }
      assert forall a <- actions[1..] :: a in actions;
      assert actions[0] in actions;
    }
  }

  /** A call gives a channel up only if the service was not running, the channel was disabled, the call
      was cancelled, or all the starts it was asked for, at least one, have failed; it never makes more. */
  lemma FalseMeansFailed(s: State, name: Name, attempts: nat, actions: seq<Action>)
    requires Runs(Apply(s, Ensure(name, attempts)), actions)
    ensures var t, c := After(Apply(s, Ensure(name, attempts)), actions), s.next;
      var most := if attempts > 1 then attempts else 1;
      && c in t.calls && t.calls[c].name == name && Starts(actions, c) <= most
      && (!s.running ==> t.calls[c].pc == Returned(false))
      && (t.calls[c].pc == Returned(false) ==>
            !s.running || Enter(c, false) in actions || Cancel(c) in actions || Starts(actions, c) == most)
  {
    var t, c := Apply(s, Ensure(name, attempts)), s.next;
    NameStays(t, actions, c);
    if s.running { TriesRun(t, actions, c); } else { AnswerStays(t, actions, c); }
  }

  lemma NameStep(s: State, a: Action, c: nat)
    requires Enabled(s, a) && c in s.calls && c < s.next
    ensures c in Apply(s, a).calls && c < Apply(s, a).next && Apply(s, a).calls[c].name == s.calls[c].name
  {
    if ActorOf(a) != Some(c) { OtherCalls(s, a, c); }
  }

  lemma {:induction false} NameStays(s: State, actions: seq<Action>, c: nat)
    requires Runs(s, actions) && c in s.calls && c < s.next
    ensures c in After(s, actions).calls && After(s, actions).calls[c].name == s.calls[c].name
    decreases |actions|
  {
    if actions != [] {
      NameStep(s, actions[0], c);
      NameStays(Apply(s, actions[0]), actions[1..], c);
    }
  }

  // ------------------------------------------------------------------ stopping a busy service

  /** An honest run that begins by stopping the service and does not start it again. */
  predicate StopRun(s: State, actions: seq<Action>) {
    && actions != [] && actions[0] == StopService && StartService !in actions
    && Runs(s, actions) && HonestRun(s, actions)
  }

  /** Every stop is over, and yet something runs. */
  predicate Escaped(s: State) {
    !Halting(s) && s.live != {}
  }

  ghost predicate Quiet(s: State, x: nat) {
    Inv(s) && x in s.stops && !Busy(s) && !s.running && (s.stops[x].Ended? ==> s.live == {})
  }

  /** While no call is inside, nothing starts to run. */
  lemma IdleLive(s: State, a: Action)
    requires Enabled(s, a) && !Busy(s)
    ensures Apply(s, a).live <= s.live
  {
  }

  lemma QuietStep(s: State, a: Action, x: nat)
    requires Quiet(s, x) && Enabled(s, a) && Honest(s, a) && a != StartService
    ensures Quiet(Apply(s, a), x)
  {
    IdleLive(s, a);
    InvStep(s, a);
    BusyStep(s, a);
    assert StopOk(s, x);
  }

  lemma {:induction false} QuietRun(s: State, actions: seq<Action>, x: nat)
    requires Quiet(s, x) && Runs(s, actions) && HonestRun(s, actions) && StartService !in actions
    ensures Quiet(After(s, actions), x)
    decreases |actions|
  {
    if actions != [] {
      assert actions[0] in actions;
      QuietStep(s, actions[0], x);
      QuietRun(Apply(s, actions[0]), actions[1..], x);
    }
  }

  lemma NoEscape(s: State, actions: seq<Action>)
    requires Inv(s) && !Busy(s) && StopRun(s, actions)
    ensures !Escaped(After(s, actions))
  {
    InvStep(s, StopService);
    BusyStep(s, StopService);
    QuietRun(Apply(s, StopService), actions[1..], s.next);
  }

  lemma {:induction false} RunsOn(s: State, first: seq<Action>, second: seq<Action>)
    requires Runs(s, first) && HonestRun(s, first)
    requires Runs(After(s, first), second) && HonestRun(After(s, first), second)
    ensures Runs(s, first + second) && HonestRun(s, first + second)
    ensures After(s, first + second) == After(After(s, first), second)
    decreases |first|
  {
    if first == [] {
      assert first + second == second;
    } else {
      assert (first + second)[1..] == first[1..] + second;
      RunsOn(Apply(s, first[0]), first[1..], second);
    }
  }

  lemma {:induction false} CloseAll(s: State, x: nat) returns (actions: seq<Action>)
    requires x in s.stops && s.stops[x].Closing?
    ensures StartService !in actions && StopService !in actions && Runs(s, actions) && HonestRun(s, actions)
    ensures After(s, actions) == s.(stops := s.stops[x := Closing({})], live := s.live - s.stops[x].rest)
    decreases |s.stops[x].rest|
  {
    var rest := s.stops[x].rest;
    if rest == {} {
      assert s.stops[x := Closing({})] == s.stops && s.live - rest == s.live;
      actions := [];
    } else {
      var i :| i in rest;
      var step := CloseOne(x, i, false);
      var t := Apply(s, step);
      var more := CloseAll(t, x);
      actions := [step] + more;
      assert s.live - {i} - (rest - {i}) == s.live - rest;
      assert t.stops[x := Closing({})] == s.stops[x := Closing({})];
    }
  }

  /** Call c is starting an instance of its name, and it runs. */
  ghost predicate HasStarted(s: State, c: nat) {
    && c in s.calls && s.calls[c].pc.Starting? && s.calls[c].pc.instance in s.live
    && s.calls[c].pc.instance in s.names && s.names[s.calls[c].pc.instance] == s.calls[c].name
    && s.calls[c].pc.instance < s.next
  }

  /** Any call inside can get an instance started. */
  lemma Restarts(s: State, c: nat) returns (actions: seq<Action>)
    requires c in s.calls && s.live == {}
    requires s.calls[c].pc.Holds() || (s.calls[c].pc.Waiting? && s.calls[c].name !in s.holder)
    requires CallOk(s, c) && forall i <- s.names :: i < s.next
    requires s.calls[c].pc.Waiting? && s.calls[c].name in s.channels ==> ChannelOk(s, s.calls[c].name)
    ensures StartService !in actions && StopService !in actions && Runs(s, actions) && HonestRun(s, actions)
    ensures After(s, actions).stops == s.stops && After(s, actions).running == s.running
    ensures HasStarted(After(s, actions), c)
    decreases match s.calls[c].pc case Waiting => 2 case Stopping(_) => 1 case _ => 0
  {
    if s.calls[c].pc.Starting? {
      actions := [GoLive(c)];
      assert s.calls[c].pc.instance in Apply(s, GoLive(c)).live;
      assert Runs(Apply(s, GoLive(c)), actions[1..]);
    } else {
      var step := if s.calls[c].pc.Stopping? then OldStopped(c) else Enter(c, true);
      RestartStep(s, c);
      var more := Restarts(Apply(s, step), c);
      actions := [step] + more;
    }
  }

  lemma RestartStep(s: State, c: nat)
    requires c in s.calls && s.live == {} && CallOk(s, c) && forall i <- s.names :: i < s.next
    requires s.calls[c].pc.Stopping? || (s.calls[c].pc.Waiting? && s.calls[c].name !in s.holder)
    requires s.calls[c].pc.Waiting? && s.calls[c].name in s.channels ==> ChannelOk(s, s.calls[c].name)
    ensures var step := if s.calls[c].pc.Stopping? then OldStopped(c) else Enter(c, true);
      var t := Apply(s, step);
      && c in t.calls && t.live == {} && CallOk(t, c) && (forall i <- t.names :: i < t.next)
      && t.calls[c].pc.Holds() && t.stops == s.stops && t.running == s.running
  {
  }

  lemma StopUnderBusy(s: State) returns (actions: seq<Action>)
    requires Inv(s) && Busy(s)
    ensures StopRun(s, actions)
    ensures var t := After(s, actions);
      t == s.(running := false, live := {}, stops := s.stops[s.next := Closing({})], next := s.next + 1)
  {
    var x := s.next;
    var stopped := Apply(s, StopService);
    var snapshot := Apply(stopped, Drained(x));
    var closes := CloseAll(snapshot, x);
    actions := [StopService] + ([Drained(x)] + closes);
    assert snapshot.live - s.channels.Values == {} by {
      forall i <- s.live ensures i in s.channels.Values {
        assert LiveOk(s, i);
        assert s.channels[s.names[i]] == i;
      }
    }
    assert ([Drained(x)] + closes)[1..] == closes && actions[1..] == [Drained(x)] + closes;
    assert Runs(stopped, [Drained(x)] + closes) && HonestRun(stopped, [Drained(x)] + closes);
    assert snapshot.stops[x := Closing({})] == s.stops[x := Closing({})];
  }

  /** Some call inside can go on, or holds the lock another waits for. */
  lemma SomeoneGoesOn(s: State) returns (c: nat)
    requires TablesOk(s) && Busy(s)
    ensures c in s.calls && (s.calls[c].pc.Holds() || (s.calls[c].pc.Waiting? && s.calls[c].name !in s.holder))
  {
    c :| c in s.calls && s.calls[c].pc.Inside();
    if s.calls[c].pc.Waiting? && s.calls[c].name in s.holder {
      assert HolderOk(s, s.calls[c].name);
      c := s.holder[s.calls[c].name];
    }
  }

  lemma GoesOnAfterStop(s: State, c: nat)
    requires TablesOk(s) && c in s.calls
    ensures var t := s.(running := false, live := {}, stops := s.stops[s.next := Closing({})], next := s.next + 1);
      && CallOk(t, c) && (forall i <- t.names :: i < t.next)
      && (s.calls[c].name in t.channels ==> ChannelOk(t, s.calls[c].name))
  {
    assert CallOk(s, c);
    if s.calls[c].name in s.channels { assert ChannelOk(s, s.calls[c].name); }
  }

  lemma ClearEnds(s: State, t: State, x: nat)
    requires Inv(s) && Busy(s) && Enabled(t, Clear(x)) && t.live != {}
    requires t.stops == s.stops[x := Closing({})]
    ensures Runs(t, [Clear(x)]) && HonestRun(t, [Clear(x)]) && Escaped(After(t, [Clear(x)]))
  {
    var u := Apply(t, Clear(x));
    assert [Clear(x)][1..] == [] && Runs(u, []) && After(u, []) == u;
    forall y <- u.stops ensures u.stops[y].Ended? {
      if y != x { assert StopOk(s, y); }
    }
  }

  /** A call inside when the service is stopped can outlive the stop and leave a channel running. */
  lemma BusyEscapes(s: State) returns (actions: seq<Action>)
    requires Inv(s) && Busy(s)
    ensures StopRun(s, actions) && Escaped(After(s, actions))
  {
    var c := SomeoneGoesOn(s);
    var closing := StopUnderBusy(s);
    var closed := After(s, closing);
    GoesOnAfterStop(s, c);
    var more := Restarts(closed, c);
    ClearEnds(s, After(closed, more), s.next);
    RunsOn(closed, more, [Clear(s.next)]);
    RunsOn(s, closing, more + [Clear(s.next)]);
    actions := closing + (more + [Clear(s.next)]);
  }

  /** Stopping the service can leave a channel running exactly if a call is inside when it is stopped. */
  lemma StopEscapesIff(s: State)
    requires Inv(s)
    ensures (exists actions :: StopRun(s, actions) && Escaped(After(s, actions))) <==> Busy(s)
  {
    if Busy(s) {
      var actions := BusyEscapes(s);
    } else {
      forall actions | StopRun(s, actions) ensures !Escaped(After(s, actions)) { NoEscape(s, actions); }
    }
  }
}
