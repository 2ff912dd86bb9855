/** The Discord channel's table of active threads with its reverse index
    (DiscordChannel._record_thread_mapping and _load_active_threads in
    backend/app/channels/discord.py). */
module DiscordThreads {
  import opened Options

  type Id = string

  /** `ids` is meant to hold just the values of `active`. */
  datatype Table = Table(active: map<Id, Id>, ids: set<Id>)

  datatype Action = Record(channel: Id, thread: Id) | Load(stored: map<Id, Id>)

  ghost predicate Exact(t: Table) {
    t.ids == t.active.Values
  }

  function AfterRecord(t: Table, channel: Id, thread: Id): Table {
    var dropped := if channel in t.active && t.active[channel] != "" then {t.active[channel]} else {};
    Table(t.active[channel := thread], t.ids - dropped + {thread})
  }

  function Apply(t: Table, a: Action): Table {
    match a
    case Record(c, thread) => AfterRecord(t, c, thread)
    case Load(stored) => Table(stored, stored.Values)
  }

  function After(t: Table, actions: seq<Action>): Table
    decreases |actions|
  {
    if actions == [] then t else After(Apply(t, actions[0]), actions[1..])
  }

  ghost predicate HeldElsewhere(t: Table, channel: Id, thread: Id) {
    exists c <- t.active :: c != channel && t.active[c] == thread
  }

  /** Recording keeps the index exact, unless it replaces another thread that is shared with a further
      channel (which then is forgotten), or replaces an unshared empty id (which is then never forgotten). */
  lemma RecordKeepsExactIff(t: Table, channel: Id, thread: Id)
    requires Exact(t)
    ensures Exact(AfterRecord(t, channel, thread)) <==>
      (channel in t.active && t.active[channel] != thread ==>
        (HeldElsewhere(t, channel, t.active[channel]) <==> t.active[channel] == ""))
  {
    var after := AfterRecord(t, channel, thread);
    assert forall c <- t.active :: c != channel ==> after.active[c] == t.active[c];
    assert after.active[channel] == thread;
    assert forall v :: v in after.active.Values <==> v == thread || HeldElsewhere(t, channel, v);
    assert forall v :: v in t.active.Values <==>
      HeldElsewhere(t, channel, v) || (channel in t.active && v == t.active[channel]);
    if channel in t.active && t.active[channel] != thread {
      var replaced := t.active[channel];
      assert replaced in after.ids <==> replaced == "";
      assert replaced in after.active.Values <==> HeldElsewhere(t, channel, replaced);
    }
    if channel in t.active && t.active[channel] != thread ==>
        (HeldElsewhere(t, channel, t.active[channel]) <==> t.active[channel] == "") {
      forall v ensures v in after.ids <==> v in after.active.Values {}
    }
  }

  /** No thread is shared between channels, and none has an empty id. */
  ghost predicate Unshared(active: map<Id, Id>) {
    && "" !in active.Values
    && forall c, d :: c in active && d in active && active[c] == active[d] ==> c == d
  }

  /** Every thread recorded is new to the table, as are those the platform has just created. */
  ghost predicate RecordsNewThreads(t: Table, actions: seq<Action>)
    decreases |actions|
  {
    actions == [] ||
    (&& (match actions[0]
         case Record(_, thread) => thread != "" && thread !in t.active.Values
         case Load(stored) => Unshared(stored))
     && RecordsNewThreads(Apply(t, actions[0]), actions[1..]))
  }

  lemma NewThreadKeepsUnshared(t: Table, channel: Id, thread: Id)
    requires Exact(t) && Unshared(t.active) && thread != "" && thread !in t.active.Values
    ensures Exact(AfterRecord(t, channel, thread)) && Unshared(AfterRecord(t, channel, thread).active)
  {
    RecordKeepsExactIff(t, channel, thread);
  }

  /** Over whole runs, a thread is recognised exactly if it is the current one of some channel, and of one only. */
  lemma {:induction false} RecognisedIffCurrent(t: Table, actions: seq<Action>, thread: Id)
    requires Exact(t) && Unshared(t.active) && RecordsNewThreads(t, actions)
    ensures var u := After(t, actions);
      && Unshared(u.active)
      && (thread in u.ids <==> exists c <- u.active :: u.active[c] == thread)
    decreases |actions|
  {
    if actions != [] {
      if actions[0].Record? { NewThreadKeepsUnshared(t, actions[0].channel, actions[0].thread); }
      RecognisedIffCurrent(Apply(t, actions[0]), actions[1..], thread);
    }
  }

  /** The failing run: a stored table maps two channels to one thread, one of them gets a new thread,
      and the thread is forgotten although the other channel still has it. */
  lemma SharedThreadForgotten(one: Id, other: Id, thread: Id, created: Id)
    requires one != other && thread != "" && thread != created
    ensures var t := After(Table(map[], {}), [Action.Load(map[one := thread, other := thread]), Record(one, created)]);
      other in t.active && t.active[other] == thread && thread !in t.ids
  {
    var stored := map[one := thread, other := thread];
    var actions := [Action.Load(stored), Record(one, created)];
    var loaded := Table(stored, stored.Values);
    assert Apply(Table(map[], {}), actions[0]) == loaded && actions[1..] == [Record(one, created)];
    assert After(loaded, [Record(one, created)])
        == After(AfterRecord(loaded, one, created), [Record(one, created)][1..]);
  }

  lemma AddedValue(active: map<Id, Id>, channel: Id, thread: Id)
    requires channel !in active
    ensures active[channel := thread].Values == active.Values + {thread}
  {
    var after := active[channel := thread];
    assert after[channel] == thread;
    forall v <- active.Values ensures v in after.Values {
      var d :| d in active && active[d] == v;
      assert after[d] == v;
    }
  }

  class ThreadTable {
    var activeThreads: map<Id, Id>
    var activeThreadIds: set<Id>

    function Value(): Table
      reads this
    {
      Table(activeThreads, activeThreadIds)
    }

    constructor ()
      ensures Value() == Table(map[], {})
    {
      activeThreads, activeThreadIds := map[], {};
    }

    method Record(channel: Id, thread: Id)
      modifies this
      ensures Value() == AfterRecord(old(Value()), channel, thread)
    {
      var replaced := if channel in activeThreads then Some(activeThreads[channel]) else None;
      activeThreads := activeThreads[channel := thread];
      if replaced.Some? && replaced.value != "" { activeThreadIds := activeThreadIds - {replaced.value}; }
      activeThreadIds := activeThreadIds + {thread};
    }

    method Load(stored: map<Id, Id>)
      modifies this
      ensures Value() == Apply(old(Value()), Action.Load(stored))
      ensures Exact(Value())
    {
      activeThreads, activeThreadIds := map[], {};
      var rest := stored.Keys;
      while rest != {}
        invariant rest <= stored.Keys
        invariant activeThreads == map c | c in stored && c !in rest :: stored[c]
        invariant activeThreadIds == activeThreads.Values
      {
        var c :| c in rest;
        ghost var before := activeThreads;
        activeThreads := activeThreads[c := stored[c]];
        activeThreadIds := activeThreadIds + {stored[c]};
        rest := rest - {c};
        AddedValue(before, c, stored[c]);
      }
      assert activeThreads == stored;
    }
  }
}
