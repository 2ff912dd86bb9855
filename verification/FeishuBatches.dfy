/** Batching of consecutive file messages (backend/app/channels/feishu.py).

    The table of pending batches is changed under a lock; what the lock holder then
    does outside it (arming a flush timer, handing an expired batch on) happens later
    and may interleave with other messages and with timers going off. */
module FeishuBatches {
  import opened Options
  import opened Texts

  const WINDOW: real := 0.75

  datatype Key = Key(chat: string, user: string)

  datatype Message = Message(id: string, key: Key, text: string, files: seq<string>)

  /** `text` and `files` are those of the inbound message that will be published. */
  datatype Batch = Batch(anchor: string, createdAt: real, ids: seq<string>, parts: seq<string>, text: string,
      files: seq<string>)

  function JoinParts(parts: seq<string>): string {
    if parts == [] then ""
    else
      var front, last := JoinParts(parts[..|parts| - 1]), parts[|parts| - 1];
      if last == "" then front else if front == "" then last else front + "\n\n" + last
  }

  function Started(m: Message, now: real): Batch {
    Batch(m.id, now, [m.id], [m.text], m.text, m.files)
  }

  function Extended(b: Batch, m: Message): Batch {
    b.(ids := b.ids + [m.id], parts := b.parts + [m.text], text := JoinParts(b.parts + [m.text]),
        files := b.files + m.files)
  }

  predicate Joins(pending: map<Key, Batch>, m: Message, now: real) {
    m.key in pending && now - pending[m.key].createdAt <= WINDOW
  }

  // ------------------------------------------------------------------ the table under the lock

  class PendingBatches {
    var pending: map<Key, Batch>

    constructor ()
      ensures pending == map[]
    {
      pending := map[];
    }

    /** Returns whether a new batch starts, and the expired batch it displaced. */
    method Queue(m: Message, now: real) returns (starts: bool, expired: Option<Batch>)
      modifies this
      ensures starts == !Joins(old(pending), m, now)
      ensures expired == if starts && m.key in old(pending) then Some(old(pending)[m.key]) else None
      ensures pending == old(pending)[m.key := if starts then Started(m, now) else Extended(old(pending)[m.key], m)]
    {
      expired := None;
      if m.key in pending {
        var batch := pending[m.key];
        if now - batch.createdAt <= WINDOW {
          var parts := batch.parts + [m.text];
          pending := pending[m.key := Batch(batch.anchor, batch.createdAt, batch.ids + [m.id], parts,
                                            JoinParts(parts), batch.files + m.files)];
          return false, None;
        }
        expired := Some(batch);
      }
      pending := pending[m.key := Batch(m.id, now, [m.id], [m.text], m.text, m.files)];
      starts := true;
    }

    /** Pops the batch a timer was armed for, or nothing if another batch has taken its place. */
    method Pop(key: Key, anchor: string) returns (batch: Option<Batch>)
      modifies this
      ensures batch == if key in old(pending) && old(pending)[key].anchor == anchor then Some(old(pending)[key])
          else None
      ensures pending == if batch.Some? then old(pending) - {key} else old(pending)
    {
      if key !in pending || pending[key].anchor != anchor { return None; }
      batch := Some(pending[key]);
      pending := pending - {key};
    }
  }

  // ------------------------------------------------------------------ the protocol

  datatype Timer = Timer(key: Key, anchor: string, serial: nat)

  datatype Task = Arm(timer: Timer) | HandOn(batch: Batch)

  datatype Group = Group(key: Key, members: seq<Message>)

  /** The program state (pending, timers, outstanding tasks, batches handed on) with records of
      the past: all messages queued, the members of each pending batch and its serial number,
      the batches closed so far with their members, and the openings (key and anchor) in order. */
  datatype State = State(
    pending: map<Key, Batch>,
    timers: multiset<Timer>,
    tasks: multiset<Task>,
    handed: multiset<Batch>,
    queued: seq<Message>,
    members: map<Key, seq<Message>>,
    serials: map<Key, nat>,
    closed: seq<Batch>,
    groups: seq<Group>,
    openings: seq<(Key, string)>)

  datatype Action = Queue(m: Message, now: real) | Perform(task: Task) | Fire(timer: Timer)

  predicate Enabled(s: State, a: Action) {
    match a
    case Queue(_, _) => true
    case Perform(task) => task in s.tasks
    case Fire(timer) => timer in s.timers
  }

  function Close(s: State, key: Key): State
    requires key in s.pending && key in s.members
  {
    s.(closed := s.closed + [s.pending[key]], groups := s.groups + [Group(key, s.members[key])])
  }

  /** The locked part of queueing, and what it leaves its caller to do. */
  function AfterQueue(s: State, m: Message, now: real): State
    requires s.pending.Keys == s.members.Keys
  {
    var key := m.key;
    var t := s.(queued := s.queued + [m]);
    if Joins(s.pending, m, now) then
      t.(pending := s.pending[key := Extended(s.pending[key], m)], members := s.members[key := s.members[key] + [m]])
    else
      var u := if key in s.pending then Close(t, key).(tasks := s.tasks + multiset{HandOn(s.pending[key])}) else t;
      u.(pending := s.pending[key := Started(m, now)], members := s.members[key := [m]],
         serials := s.serials[key := |s.openings|], openings := s.openings + [(key, m.id)],
         tasks := u.tasks + multiset{Arm(Timer(key, m.id, |s.openings|))})
  }

  predicate Pops(s: State, timer: Timer) {
    timer.key in s.pending && s.pending[timer.key].anchor == timer.anchor
  }

  function AfterFire(s: State, timer: Timer): State
    requires s.pending.Keys == s.members.Keys
  {
    var t := s.(timers := s.timers - multiset{timer});
    if Pops(s, timer) then
      Close(t, timer.key).(pending := s.pending - {timer.key}, members := s.members - {timer.key},
                           handed := s.handed + multiset{s.pending[timer.key]})
    else t
  }

  function Apply(s: State, a: Action): State
    requires s.pending.Keys == s.members.Keys
  {
    match a
    case Queue(m, now) => AfterQueue(s, m, now)
    case Perform(Arm(timer)) => s.(tasks := s.tasks - multiset{a.task}, timers := s.timers + multiset{timer})
    case Perform(HandOn(batch)) => s.(tasks := s.tasks - multiset{a.task}, handed := s.handed + multiset{batch})
    case Fire(timer) => AfterFire(s, timer)
  }

  // ------------------------------------------------------------------ what batches contain

  function Ids(ms: seq<Message>): seq<string> {
    seq(|ms|, i requires 0 <= i < |ms| => ms[i].id)
  }

  function Captions(ms: seq<Message>): seq<string> {
    seq(|ms|, i requires 0 <= i < |ms| => ms[i].text)
  }

  function AllFiles(ms: seq<Message>): seq<string> {
    if ms == [] then [] else AllFiles(ms[..|ms| - 1]) + ms[|ms| - 1].files
  }

  /** A batch is the in-order concatenation of its members, anchored at the first; its text has the
      captions that are not empty as paragraphs. */
  ghost predicate Assembles(b: Batch, ms: seq<Message>) {
    && ms != [] && b.anchor == ms[0].id
    && b.ids == Ids(ms) && b.parts == Captions(ms) && b.text == Paragraphs(NonEmpty(Captions(ms)))
    && b.files == AllFiles(ms)
  }

  lemma {:induction false} JoinedAsParagraphs(parts: seq<string>)
    ensures JoinParts(parts) == Paragraphs(NonEmpty(parts))
  {
    if parts != [] {
      var n := |parts| - 1;
      assert parts == parts[..n] + [parts[n]];
      JoinedAsParagraphs(parts[..n]);
      ParagraphAdded(parts[..n], parts[n]);
    }
  }

  lemma StartedAssembles(m: Message, now: real)
    ensures Assembles(Started(m, now), [m])
  {
    assert [m][..0] == [];
    assert Captions([m]) == [m.text] && [m.text][1..] == [];
    assert AllFiles([m]) == AllFiles([]) + m.files;
  }

  lemma ExtendedAssembles(b: Batch, ms: seq<Message>, m: Message)
    requires Assembles(b, ms)
    ensures Assembles(Extended(b, m), ms + [m])
  {
    assert (ms + [m])[..|ms|] == ms;
    assert Ids(ms + [m]) == Ids(ms) + [m.id] && Captions(ms + [m]) == Captions(ms) + [m.text];
    JoinedAsParagraphs(Captions(ms + [m]));
  }

  // ------------------------------------------------------------------ conservation

  function QueuedFor(ms: seq<Message>, key: Key): seq<Message> {
    if ms == [] then []
    else QueuedFor(ms[..|ms| - 1], key) + (if ms[|ms| - 1].key == key then [ms[|ms| - 1]] else [])
  }

  function ClosedFor(gs: seq<Group>, key: Key): seq<Message> {
    if gs == [] then []
    else ClosedFor(gs[..|gs| - 1], key) + (if gs[|gs| - 1].key == key then gs[|gs| - 1].members else [])
  }

  function OpenFor(s: State, key: Key): seq<Message> {
    if key in s.members then s.members[key] else []
  }

  /** The batches still travelling from the lock holder to the main loop. */
  function InTransit(s: State, b: Batch): nat {
    s.tasks[HandOn(b)]
  }

  ghost predicate ContentOk(s: State) {
    && s.pending.Keys == s.members.Keys
    && (forall key <- s.pending :: Assembles(s.pending[key], s.members[key]))
    && |s.closed| == |s.groups|
    && (forall i :: 0 <= i < |s.closed| ==> Assembles(s.closed[i], s.groups[i].members))
  }

  /** Closed batches and then the pending one hold exactly this key's messages, in order. */
  ghost predicate OrderOk(s: State, key: Key) {
    ClosedFor(s.groups, key) + OpenFor(s, key) == QueuedFor(s.queued, key)
  }

  /** Every closed batch was handed on once, or is on its way. */
  ghost predicate CountOk(s: State, b: Batch) {
    multiset(s.closed)[b] == s.handed[b] + InTransit(s, b)
  }

  ghost predicate Inv(s: State) {
    ContentOk(s) && (forall key :: OrderOk(s, key)) && (forall b :: CountOk(s, b))
  }

  ghost predicate OpenedAs(s: State, timer: Timer) {
    timer.serial < |s.openings| && s.openings[timer.serial] == (timer.key, timer.anchor)
  }

  /** The timer that belongs to a pending batch. */
  ghost function OwnTimer(s: State, key: Key): Timer
    requires key in s.pending && key in s.serials
  {
    Timer(key, s.pending[key].anchor, s.serials[key])
  }

  ghost predicate Armed(s: State, key: Key)
    requires key in s.pending
  {
    key in s.serials && OpenedAs(s, OwnTimer(s, key))
        && (OwnTimer(s, key) in s.timers || Arm(OwnTimer(s, key)) in s.tasks)
  }

  /** Every pending batch has an outstanding timer with its own anchor. */
  ghost predicate TimerInv(s: State) {
    && (forall key <- s.pending :: Armed(s, key))
    && (forall timer <- s.timers :: OpenedAs(s, timer))
    && (forall task <- s.tasks :: task.Arm? ==> OpenedAs(s, task.timer))
  }

  lemma PendingStep(s: State, a: Action, key: Key)
    requires s.pending.Keys == s.members.Keys && key in Apply(s, a).pending
    requires key in s.pending ==> Assembles(s.pending[key], s.members[key])
    ensures key in Apply(s, a).members && Assembles(Apply(s, a).pending[key], Apply(s, a).members[key])
  {
    if a.Queue? && key == a.m.key {
      if Joins(s.pending, a.m, a.now) {
        ExtendedAssembles(s.pending[key], s.members[key], a.m);
      } else {
        StartedAssembles(a.m, a.now);
      }
    }
  }

  /** A step closes at most one batch, the pending one of some key. */
  ghost predicate ClosesAtMostOne(s: State, t: State)
    requires s.pending.Keys == s.members.Keys
  {
    || (t.closed == s.closed && t.groups == s.groups)
    || exists key :: key in s.pending && t.closed == Close(s, key).closed && t.groups == Close(s, key).groups
  }

  lemma QueueCloses(s: State, m: Message, now: real)
    requires s.pending.Keys == s.members.Keys
    ensures ClosesAtMostOne(s, AfterQueue(s, m, now))
  {
    var t := AfterQueue(s, m, now);
    if m.key in s.pending && !Joins(s.pending, m, now) {
      assert t.closed == Close(s, m.key).closed && t.groups == Close(s, m.key).groups;
    }
  }

  lemma FireCloses(s: State, timer: Timer)
    requires s.pending.Keys == s.members.Keys
    ensures ClosesAtMostOne(s, AfterFire(s, timer))
  {
    var t := AfterFire(s, timer);
    if Pops(s, timer) {
      assert t.closed == Close(s, timer.key).closed && t.groups == Close(s, timer.key).groups;
    }
  }

  lemma ClosedStep(s: State, a: Action)
    requires s.pending.Keys == s.members.Keys && |s.closed| == |s.groups|
    ensures var t := Apply(s, a);
      t.pending.Keys == t.members.Keys && |t.closed| == |t.groups| && ClosesAtMostOne(s, t)
  {
    match a {
      case Queue(m, now) => QueueCloses(s, m, now);
      case Perform(_) =>
      case Fire(timer) => FireCloses(s, timer);
    }
  }

  lemma ContentStep(s: State, a: Action)
    requires ContentOk(s) && Enabled(s, a)
    ensures ContentOk(Apply(s, a))
  {
    ClosedStep(s, a);
    forall key <- Apply(s, a).pending ensures Assembles(Apply(s, a).pending[key], Apply(s, a).members[key]) {
      PendingStep(s, a, key);
    }
  }

  lemma QueuedForAppend(ms: seq<Message>, m: Message, key: Key)
    ensures QueuedFor(ms + [m], key) == if m.key == key then QueuedFor(ms, key) + [m] else QueuedFor(ms, key)
  {
    assert (ms + [m])[..|ms|] == ms;
  }

  lemma JoinOrder(s: State, m: Message, now: real, key: Key)
    requires s.pending.Keys == s.members.Keys && OrderOk(s, key) && Joins(s.pending, m, now)
    ensures OrderOk(AfterQueue(s, m, now), key)
  {
    var t := AfterQueue(s, m, now);
    assert t.groups == s.groups && t.queued == s.queued + [m];
    QueuedForAppend(s.queued, m, key);
    if key == m.key {
      assert OpenFor(t, key) == OpenFor(s, key) + [m];
      assert ClosedFor(s.groups, key) + (OpenFor(s, key) + [m]) == (ClosedFor(s.groups, key) + OpenFor(s, key)) + [m];
    } else {
      assert OpenFor(t, key) == OpenFor(s, key) && QueuedFor(t.queued, key) == QueuedFor(s.queued, key);
    }
  }

  lemma DisplaceOrder(s: State, m: Message, now: real, key: Key)
    requires s.pending.Keys == s.members.Keys && OrderOk(s, key) && !Joins(s.pending, m, now) && m.key in s.pending
    ensures OrderOk(AfterQueue(s, m, now), key)
  {
    var t := AfterQueue(s, m, now);
    assert t.groups == Close(s, m.key).groups;
    assert OpenFor(t, key) == if key == m.key then [m] else OpenFor(s, key);
  }

  lemma QueueOrder(s: State, m: Message, now: real, key: Key)
    requires s.pending.Keys == s.members.Keys && OrderOk(s, key)
    ensures OrderOk(AfterQueue(s, m, now), key)
  {
    if Joins(s.pending, m, now) { JoinOrder(s, m, now, key); }
    else if m.key in s.pending { DisplaceOrder(s, m, now, key); }
  }

  lemma FireOrder(s: State, timer: Timer, key: Key)
    requires s.pending.Keys == s.members.Keys && OrderOk(s, key)
    ensures OrderOk(AfterFire(s, timer), key)
  {
    var t := AfterFire(s, timer);
    if Pops(s, timer) {
      ClosedForAppend(s.groups, Group(timer.key, s.members[timer.key]), key);
      assert t.groups == s.groups + [Group(timer.key, s.members[timer.key])];
      assert OpenFor(t, key) == if key == timer.key then [] else OpenFor(s, key);
    } else {
      assert t.groups == s.groups && OpenFor(t, key) == OpenFor(s, key);
    }
  }

  lemma ClosedForAppend(gs: seq<Group>, g: Group, key: Key)
    ensures ClosedFor(gs + [g], key) == ClosedFor(gs, key) + (if g.key == key then g.members else [])
  {
    assert (gs + [g])[..|gs|] == gs;
  }

  lemma PerformOrder(s: State, task: Task, key: Key)
    requires s.pending.Keys == s.members.Keys && OrderOk(s, key)
    ensures OrderOk(Apply(s, Perform(task)), key)
  {
    var t := Apply(s, Perform(task));
    assert t.groups == s.groups && t.queued == s.queued && OpenFor(t, key) == OpenFor(s, key);
  }

  lemma OrderStep(s: State, a: Action, key: Key)
    requires s.pending.Keys == s.members.Keys && OrderOk(s, key)
    ensures OrderOk(Apply(s, a), key)
  {
    match a {
      case Queue(m, now) => QueueOrder(s, m, now, key);
      case Perform(task) => PerformOrder(s, task, key);
      case Fire(timer) => FireOrder(s, timer, key);
    }
  }

  lemma PerformCount(s: State, task: Task, b: Batch)
    requires s.pending.Keys == s.members.Keys && CountOk(s, b) && task in s.tasks
    ensures CountOk(Apply(s, Perform(task)), b)
  {
    var t := Apply(s, Perform(task));
    if task.HandOn? {
      assert t.handed[b] == s.handed[b] + (if b == task.batch then 1 else 0);
      assert InTransit(t, b) == InTransit(s, b) - (if b == task.batch then 1 else 0);
    } else {
      assert InTransit(t, b) == InTransit(s, b);
    }
  }

  lemma CountStep(s: State, a: Action, b: Batch)
    requires s.pending.Keys == s.members.Keys && CountOk(s, b) && Enabled(s, a)
    ensures CountOk(Apply(s, a), b)
  {
    match a {
      case Queue(m, now) =>
      case Perform(task) => PerformCount(s, task, b);
      case Fire(timer) =>
    }
  }

  lemma InvStep(s: State, a: Action)
    requires Inv(s) && Enabled(s, a)
    ensures Inv(Apply(s, a))
  {
    ContentStep(s, a);
    forall key ensures OrderOk(Apply(s, a), key) { OrderStep(s, a, key); }
    forall b ensures CountOk(Apply(s, a), b) { CountStep(s, a, b); }
  }

  lemma ArmedQueue(s: State, m: Message, now: real, key: Key)
    requires s.pending.Keys == s.members.Keys && key in AfterQueue(s, m, now).pending
    requires key in s.pending ==> Armed(s, key)
    ensures Armed(AfterQueue(s, m, now), key)
  {
    if key == m.key && !Joins(s.pending, m, now) {
      assert OwnTimer(AfterQueue(s, m, now), key) == Timer(key, m.id, |s.openings|);
    } else {
      assert OwnTimer(AfterQueue(s, m, now), key) == OwnTimer(s, key);
    }
  }

  lemma ArmedFire(s: State, timer: Timer, key: Key)
    requires s.pending.Keys == s.members.Keys && key in AfterFire(s, timer).pending
    requires key in s.pending && Armed(s, key)
    ensures Armed(AfterFire(s, timer), key)
  {
    assert OwnTimer(AfterFire(s, timer), key) == OwnTimer(s, key);
    assert OwnTimer(s, key) != timer;
  }

  lemma ArmedStep(s: State, a: Action, key: Key)
    requires s.pending.Keys == s.members.Keys && Enabled(s, a) && key in Apply(s, a).pending
    requires key in s.pending ==> Armed(s, key)
    ensures Armed(Apply(s, a), key)
  {
    match a {
      case Queue(m, now) => ArmedQueue(s, m, now, key);
      case Perform(task) => assert OwnTimer(Apply(s, a), key) == OwnTimer(s, key);
      case Fire(timer) => ArmedFire(s, timer, key);
    }
  }

  lemma OpenedStep(s: State, a: Action, timer: Timer)
    requires s.pending.Keys == s.members.Keys && Enabled(s, a)
    requires OpenedAs(s, timer)
    ensures OpenedAs(Apply(s, a), timer)
  {
  }

  lemma TimerInvStep(s: State, a: Action)
    requires ContentOk(s) && TimerInv(s) && Enabled(s, a)
    ensures TimerInv(Apply(s, a))
  {
    var t := Apply(s, a);
    forall key <- t.pending ensures Armed(t, key) { ArmedStep(s, a, key); }
    forall timer <- t.timers ensures OpenedAs(t, timer) { TimerOpened(s, a, timer); }
    forall task <- t.tasks | task.Arm? ensures OpenedAs(t, task.timer) { TaskOpened(s, a, task); }
  }

  lemma TimerOpened(s: State, a: Action, timer: Timer)
    requires ContentOk(s) && TimerInv(s) && Enabled(s, a) && timer in Apply(s, a).timers
    ensures OpenedAs(Apply(s, a), timer)
  {
    assert timer in s.timers || Arm(timer) in s.tasks;
    OpenedStep(s, a, timer);
  }

  lemma TaskOpened(s: State, a: Action, task: Task)
    requires ContentOk(s) && TimerInv(s) && Enabled(s, a) && task in Apply(s, a).tasks && task.Arm?
    ensures OpenedAs(Apply(s, a), task.timer)
  {
    if task in s.tasks { OpenedStep(s, a, task.timer); } else { ArmOpened(s, a, task); }
  }

  lemma ArmOpened(s: State, a: Action, task: Task)
    requires s.pending.Keys == s.members.Keys && Enabled(s, a) && task in Apply(s, a).tasks && task !in s.tasks
        && task.Arm?
    ensures OpenedAs(Apply(s, a), task.timer)
  {
  }

  // ------------------------------------------------------------------ whole runs

  predicate Initial(s: State) {
    s == State(map[], multiset{}, multiset{}, multiset{}, [], map[], map[], [], [], [])
  }

  ghost predicate Runs(s: State, actions: seq<Action>, t: State)
    decreases |actions|
  {
    if actions == [] then s == t
    else s.pending.Keys == s.members.Keys && Enabled(s, actions[0]) && Runs(Apply(s, actions[0]), actions[1..], t)
  }

  lemma {:induction false} RunInv(s: State, actions: seq<Action>, t: State)
    requires Inv(s) && TimerInv(s) && Runs(s, actions, t)
    ensures Inv(t) && TimerInv(t)
    decreases |actions|
  {
    if actions != [] {
      InvStep(s, actions[0]);
      TimerInvStep(s, actions[0]);
      RunInv(Apply(s, actions[0]), actions[1..], t);
    }
  }

  /** Conservation. At any moment each key's messages are, in order and without loss or repetition,
      those of its closed batches followed by its pending one; every closed batch was handed on
      exactly once or is on its way; each batch is the concatenation of its members; and a pending
      batch has a timer of its own outstanding. */
  lemma BatchesConserveMessages(s: State, actions: seq<Action>, t: State)
    requires Initial(s) && Runs(s, actions, t)
    ensures forall key :: ClosedFor(t.groups, key) + OpenFor(t, key) == QueuedFor(t.queued, key)
    ensures forall b :: multiset(t.closed)[b] == t.handed[b] + InTransit(t, b)
    ensures |t.closed| == |t.groups| && forall i :: 0 <= i < |t.closed| ==> Assembles(t.closed[i], t.groups[i].members)
    ensures forall key <- t.pending :: Armed(t, key)
  {
    assert Inv(s) && TimerInv(s);
    RunInv(s, actions, t);
    forall key ensures ClosedFor(t.groups, key) + OpenFor(t, key) == QueuedFor(t.queued, key) {
      assert OrderOk(t, key);
    }
    forall b ensures multiset(t.closed)[b] == t.handed[b] + InTransit(t, b) { assert CountOk(t, b); }
  }

  /** Once every task and timer has run, nothing is pending: all messages were handed on, exactly once. */
  lemma QuietMeansDelivered(s: State, actions: seq<Action>, t: State)
    requires Initial(s) && Runs(s, actions, t) && t.tasks == multiset{} && t.timers == multiset{}
    ensures t.pending == map[] && t.handed == multiset(t.closed)
    ensures forall key :: ClosedFor(t.groups, key) == QueuedFor(t.queued, key)
  {
    BatchesConserveMessages(s, actions, t);
    forall b ensures t.handed[b] == multiset(t.closed)[b] { assert InTransit(t, b) == 0; }
    forall key ensures ClosedFor(t.groups, key) == QueuedFor(t.queued, key) {
      RunKeepsKeys(s, actions, t);
      assert OpenFor(t, key) == [];
    }
  }

  lemma {:induction false} RunKeepsKeys(s: State, actions: seq<Action>, t: State)
    requires s.pending.Keys == s.members.Keys && |s.closed| == |s.groups| && Runs(s, actions, t)
    ensures t.pending.Keys == t.members.Keys
    decreases |actions|
  {
    if actions != [] {
      ClosedStep(s, actions[0]);
      RunKeepsKeys(Apply(s, actions[0]), actions[1..], t);
    }
  }

  // ------------------------------------------------------------------ everything settles

  /** The steps that are due: a task to arm a timer stands for two. */
  function Due(s: State): nat {
    2 * |s.tasks| + |s.timers|
  }

  /** Every step but a new message brings the end nearer. */
  lemma StepSettles(s: State, a: Action)
    requires s.pending.Keys == s.members.Keys && Enabled(s, a) && !a.Queue?
    ensures Due(Apply(s, a)) < Due(s)
  {
    if a.Perform? {
      assert |s.tasks - multiset{a.task}| == |s.tasks| - 1;
    } else {
      assert |s.timers - multiset{a.timer}| == |s.timers| - 1;
    }
  }

  /** From every reachable state, if no message comes, finitely many steps hand everything on. */
  lemma {:induction false} Settles(s: State) returns (actions: seq<Action>, t: State)
    requires Inv(s) && TimerInv(s)
    ensures Runs(s, actions, t) && |actions| <= Due(s) && forall a <- actions :: !a.Queue?
    ensures t.tasks == multiset{} && t.timers == multiset{} && t.queued == s.queued && t.pending == map[]
    decreases Due(s)
  {
    if |s.tasks| == 0 && |s.timers| == 0 {
      actions, t := [], s;
      assert s.tasks == multiset{} && s.timers == multiset{};
      forall key ensures key !in s.pending {
        if key in s.pending { assert false; }
      }
    } else {
      var a: Action;
      if |s.tasks| > 0 { var task :| task in s.tasks; a := Perform(task); }
      else { var timer :| timer in s.timers; a := Fire(timer); }
      StepSettles(s, a);
      InvStep(s, a);
      TimerInvStep(s, a);
      var more;
      more, t := Settles(Apply(s, a));
      actions := [a] + more;
      assert actions[1..] == more;
    }
  }

  // ------------------------------------------------------------------ which messages share a batch

  /** The messages of one key that a run queues. */
  function Among(actions: seq<Action>, key: Key): seq<Message> {
    if actions == [] then []
    else (if actions[0].Queue? && actions[0].m.key == key then [actions[0].m] else []) + Among(actions[1..], key)
  }

  /** No message of this key comes later than 0.75 seconds after `since`, and no timer pops the batch. */
  ghost predicate Undisturbed(actions: seq<Action>, key: Key, anchor: string, since: real) {
    forall a <- actions ::
      && (a.Queue? && a.m.key == key ==> a.now - since <= 0.75)
      && (a.Fire? && a.timer.key == key ==> a.timer.anchor != anchor)
  }

  ghost predicate Collects(s: State, key: Key, anchor: string, since: real, ms: seq<Message>) {
    && key in s.pending && key in s.members
    && s.pending[key].anchor == anchor && s.pending[key].createdAt == since && s.members[key] == ms
  }

  lemma CollectsQueue(s: State, m: Message, now: real, key: Key, anchor: string, since: real, ms: seq<Message>)
    requires s.pending.Keys == s.members.Keys && (m.key == key ==> now - since <= 0.75)
    requires Collects(s, key, anchor, since, ms)
    ensures Collects(AfterQueue(s, m, now), key, anchor, since, if m.key == key then ms + [m] else ms)
  {
  }

  lemma CollectsFire(s: State, timer: Timer, key: Key, anchor: string, since: real, ms: seq<Message>)
    requires s.pending.Keys == s.members.Keys && (timer.key == key ==> timer.anchor != anchor)
    requires Collects(s, key, anchor, since, ms)
    ensures Collects(AfterFire(s, timer), key, anchor, since, ms)
  {
  }

  lemma CollectsStep(s: State, a: Action, key: Key, anchor: string, since: real, ms: seq<Message>)
    requires s.pending.Keys == s.members.Keys && Enabled(s, a) && Undisturbed([a], key, anchor, since)
    requires Collects(s, key, anchor, since, ms)
    ensures Collects(Apply(s, a), key, anchor, since, ms + Among([a], key))
  {
    assert a in [a] && [a][1..] == [] && ms + [] == ms;
    match a {
      case Queue(m, now) => CollectsQueue(s, m, now, key, anchor, since, ms);
      case Perform(_) =>
      case Fire(timer) => CollectsFire(s, timer, key, anchor, since, ms);
    }
  }

  lemma AmongSplit(actions: seq<Action>, key: Key, anchor: string, since: real)
    requires actions != [] && Undisturbed(actions, key, anchor, since)
    ensures Undisturbed([actions[0]], key, anchor, since) && Undisturbed(actions[1..], key, anchor, since)
    ensures Among(actions, key) == Among([actions[0]], key) + Among(actions[1..], key)
  {
    assert actions[0] in actions && forall a <- actions[1..] :: a in actions;
    assert [actions[0]][1..] == [];
  }

  /** A message that opens a batch shares it with every message of its key that follows within 0.75
      seconds, in order, for as long as the timer has not popped it; a later one opens a batch of its own. */
  lemma {:induction false} QuickMessagesShare(s: State, actions: seq<Action>, t: State, key: Key, anchor: string,
        since: real, ms: seq<Message>)
    requires Collects(s, key, anchor, since, ms)
    requires Runs(s, actions, t) && Undisturbed(actions, key, anchor, since)
    ensures Collects(t, key, anchor, since, ms + Among(actions, key))
    decreases |actions|
  {
    if actions != [] {
      var first := Among([actions[0]], key);
      AmongSplit(actions, key, anchor, since);
      CollectsStep(s, actions[0], key, anchor, since, ms);
      QuickMessagesShare(Apply(s, actions[0]), actions[1..], t, key, anchor, since, ms + first);
      assert ms + (first + Among(actions[1..], key)) == ms + first + Among(actions[1..], key);
    } else {
      assert ms + [] == ms;
    }
  }

  /** A message opens a batch exactly if there is none for its key, or one older than 0.75 seconds; then
      it is alone in it, and its timer is on the way. */
  lemma OpensIff(s: State, m: Message, now: real)
    requires ContentOk(s) && TimerInv(s)
    ensures Enabled(s, Queue(m, now))
    ensures var t := Apply(s, Queue(m, now));
      if m.key in s.pending && now - s.pending[m.key].createdAt <= 0.75
      then Collects(t, m.key, s.pending[m.key].anchor, s.pending[m.key].createdAt, s.members[m.key] + [m])
      else Collects(t, m.key, m.id, now, [m]) && Arm(OwnTimer(t, m.key)) in t.tasks
  {
  }

  ghost predicate DistinctIds(ms: seq<(Key, string)>) {
    forall i, j :: 0 <= i < j < |ms| ==> ms[i].1 != ms[j].1
  }

  /** With distinct message ids a timer only ever pops the batch it was armed for. */
  lemma StaleTimerPopsNothing(s: State, actions: seq<Action>, t: State, timer: Timer)
    requires Initial(s) && Runs(s, actions, t) && timer in t.timers && DistinctIds(t.openings)
    requires Pops(t, timer)
    ensures timer.key in t.serials && timer.serial == t.serials[timer.key]
  {
    RunInv(s, actions, t);
    assert Armed(t, timer.key) && OpenedAs(t, timer);
  }
}
