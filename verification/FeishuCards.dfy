/** The running card of a Feishu conversation (backend/app/channels/feishu.py).

    While an answer is produced, one card replying to the source message is patched with
    every update. The card-id and task tables are keyed by source message and every step
    touches one key only, so the model follows a single source message: `cardId` and
    `task` are its entries in the two tables. Updates of one source arrive one at a time,
    because each publish is awaited. */
module FeishuCards {
  import opened Options

  const WORKING := "Working on it..."

  /** How a card reply comes back: with the id of the card, without one, or with an exception. */
  datatype ReplyOutcome = Created | NoId | Raised

  /** A background task that creates the running card. */
  datatype Job = Replying(text: string) | Finished(card: Option<nat>) | Failed

  datatype UpdatePc = AwaitJob(job: nat) | AwaitOwn(job: nat) | Patch(card: nat) | FinalReply

  datatype Update = Update(text: string, final: bool, pc: UpdatePc)

  datatype Delivery = Delivery(card: nat, text: string)

  /** `cards` is what Feishu shows. The records of the past are the texts handed to send, the
      deliveries made, and the final text once it was dealt with. */
  datatype Source = Source(
    cardId: Option<nat>,
    task: Option<nat>,
    jobs: map<nat, Job>,
    update: Option<Update>,
    cards: map<nat, string>,
    next: nat,
    sent: seq<string>,
    log: seq<Delivery>,
    closed: Option<string>)

  const NEW_SOURCE := Source(None, None, map[], None, map[], 0, [], [], None)

  datatype Action =
    | Prepare
    | Replied(job: nat, outcome: ReplyOutcome)
    | Callback(job: nat)
    | Send(text: string, final: bool)
    | Resume
    | Patched(ok: bool)
    | FinalReplied(outcome: ReplyOutcome)

  /** `_ensure_running_card_started`: at most one task per source; None if the card exists. */
  function EnsureStarted(s: Source, text: string): Source {
    if s.cardId.Some? || s.task.Some? then s
    else s.(task := Some(s.next), jobs := s.jobs[s.next := Replying(text)], next := s.next + 1)
  }

  predicate JobOver(s: Source, job: nat) {
    job in s.jobs && !s.jobs[job].Replying?
  }

  predicate Awaits(s: Source) {
    s.update.Some? && (s.update.value.pc.AwaitJob? || s.update.value.pc.AwaitOwn?)
  }

  /** Messages for a source stop with its final one. */
  predicate Enabled(s: Source, a: Action) {
    match a
    case Prepare => s.closed.None?
    case Replied(job, _) => job in s.jobs && s.jobs[job].Replying?
    case Callback(job) => JobOver(s, job)
    case Send(_, _) => s.closed.None? && s.update.None?
    case Resume => Awaits(s) && JobOver(s, s.update.value.pc.job)
    case Patched(_) => s.update.Some? && s.update.value.pc.Patch?
    case FinalReplied(_) => s.update.Some? && s.update.value.pc.FinalReply?
  }

  function Continue(s: Source, pc: UpdatePc): Source
    requires s.update.Some?
  {
    s.(update := Some(s.update.value.(pc := pc)))
  }

  /** The end of a successful update: a final one drops the card id. */
  function Complete(s: Source): Source
    requires s.update.Some?
  {
    if s.update.value.final then s.(update := None, cardId := None, closed := Some(s.update.value.text))
    else s.(update := None)
  }

  function Deliver(s: Source, card: nat, text: string): Source {
    s.(cards := s.cards[card := text], log := s.log + [Delivery(card, text)])
  }

  function Begin(s: Source, text: string, final: bool): Source {
    var t := s.(sent := s.sent + [text]);
    if s.cardId.Some? then t.(update := Some(Update(text, final, Patch(s.cardId.value))))
    else if s.task.Some? then t.(update := Some(Update(text, final, AwaitJob(s.task.value))))
    else if final then t.(update := Some(Update(text, final, FinalReply)))
    else
      var u := EnsureStarted(t, text);
      u.(update := Some(Update(text, final, AwaitOwn(s.next))))
  }

  function AfterResume(s: Source): Source
    requires Enabled(s, Resume)
  {
    var Update(text, final, pc) := s.update.value;
    match s.jobs[pc.job]
    case Failed => s.(update := None)
    case Finished(card) =>
      if pc.AwaitOwn? then
        Complete(if card.Some? then s.(log := s.log + [Delivery(card.value, text)]) else s)
      else if card.Some? then Continue(s, Patch(card.value))
      else if final then Continue(s, FinalReply)
      else Complete(s)
    case Replying(_) => s
  }

  function Apply(s: Source, a: Action): Source
    requires Enabled(s, a)
  {
    match a
    case Prepare => EnsureStarted(s, WORKING)
    case Replied(job, outcome) =>
      (match outcome
       case Created =>
         s.(cards := s.cards[s.next := s.jobs[job].text], cardId := Some(s.next),
            jobs := s.jobs[job := Finished(Some(s.next))], next := s.next + 1)
       case NoId => s.(jobs := s.jobs[job := Finished(None)])
       case Raised => s.(jobs := s.jobs[job := Failed]))
    case Callback(job) => if s.task == Some(job) then s.(task := None) else s
    case Send(text, final) => Begin(s, text, final)
    case Resume => AfterResume(s)
    case Patched(ok) =>
      var Update(text, final, pc) := s.update.value;
      if ok then Complete(Deliver(s, pc.card, text))
      else if final then Continue(s, FinalReply)
      else s.(update := None)
    case FinalReplied(outcome) =>
      (match outcome
       case Created => Complete(Deliver(s, s.next, s.update.value.text)).(next := s.next + 1)
       case NoId => Complete(s)
       case Raised => s.(update := None))
  }

  predicate Runs(s: Source, actions: seq<Action>)
    decreases |actions|
  {
    actions == [] || (Enabled(s, actions[0]) && Runs(Apply(s, actions[0]), actions[1..]))
  }

  function After(s: Source, actions: seq<Action>): Source
    requires Runs(s, actions)
    decreases |actions|
  {
    if actions == [] then s else After(Apply(s, actions[0]), actions[1..])
  }

  // ------------------------------------------------------------------ whatever fails

  /** One creation at a time: a task that still runs is the one in the table. */
  ghost predicate TableInv(s: Source) {
    && (forall job <- s.jobs :: job < s.next && (s.jobs[job].Replying? ==> s.task == Some(job)))
    && (s.task.Some? ==> s.task.value in s.jobs)
  }

  lemma TableStep(s: Source, a: Action)
    requires TableInv(s) && Enabled(s, a)
    ensures TableInv(Apply(s, a))
  {
  }

  /** In every run, failures or not, at most one creation is under way per source message. */
  lemma {:induction false} OneCreationAtATime(s: Source, actions: seq<Action>)
    requires TableInv(s) && Runs(s, actions)
    ensures TableInv(After(s, actions))
    ensures var t := After(s, actions);
            forall i, j :: i in t.jobs && j in t.jobs && t.jobs[i].Replying? && t.jobs[j].Replying? ==> i == j
    decreases |actions|
  {
    if actions != [] {
      TableStep(s, actions[0]);
      OneCreationAtATime(Apply(s, actions[0]), actions[1..]);
    }
  }

  // ------------------------------------------------------------------ the final update, whatever fails

  /** Every card the program knows exists. */
  ghost predicate CardsOk(s: Source) {
    && (forall card <- s.cards :: card < s.next)
    && (s.cardId.Some? ==> s.cardId.value in s.cards)
    && (forall job <- s.jobs :: s.jobs[job].Finished? && s.jobs[job].card.Some? ==> s.jobs[job].card.value in s.cards)
    && (s.update.Some? && s.update.value.pc.Patch? ==> s.update.value.pc.card in s.cards)
  }

  /** A source is closed with the last text sent, and a final update never creates the running card. */
  ghost predicate UpdateOk(s: Source) {
    && (s.closed.Some? ==> s.update.None? && s.sent != [] && s.sent[|s.sent| - 1] == s.closed.value)
    && (s.update.Some? ==>
          var Update(text, final, pc) := s.update.value;
          && s.sent != [] && s.sent[|s.sent| - 1] == text
          && (pc.FinalReply? ==> final) && (pc.AwaitOwn? ==> !final)
          && (pc.AwaitJob? || pc.AwaitOwn? ==> pc.job in s.jobs))
  }

  ghost predicate KnownInv(s: Source) {
    TableInv(s) && CardsOk(s) && UpdateOk(s)
  }

  lemma RepliedCardsOk(s: Source, job: nat, outcome: ReplyOutcome)
    requires CardsOk(s) && Enabled(s, Replied(job, outcome))
    ensures CardsOk(Apply(s, Replied(job, outcome)))
  {
  }

  lemma ResumeCardsOk(s: Source)
    requires CardsOk(s) && Enabled(s, Resume)
    ensures CardsOk(Apply(s, Resume))
  {
  }

  lemma FinalCardsOk(s: Source, outcome: ReplyOutcome)
    requires CardsOk(s) && Enabled(s, FinalReplied(outcome))
    ensures CardsOk(Apply(s, FinalReplied(outcome)))
  {
  }

  lemma CardsOkStep(s: Source, a: Action)
    requires CardsOk(s) && Enabled(s, a)
    ensures CardsOk(Apply(s, a))
  {
    match a {
      case Replied(job, outcome) => RepliedCardsOk(s, job, outcome);
      case Resume => ResumeCardsOk(s);
      case FinalReplied(outcome) => FinalCardsOk(s, outcome);
      case _ =>
    }
  }

  lemma UpdateOkStep(s: Source, a: Action)
    requires TableInv(s) && UpdateOk(s) && Enabled(s, a)
    ensures UpdateOk(Apply(s, a))
  {
    match a {
      case Resume =>
      case Patched(_) =>
      case FinalReplied(_) =>
      case _ =>
    }
  }

  lemma KnownStep(s: Source, a: Action)
    requires KnownInv(s) && Enabled(s, a)
    ensures KnownInv(Apply(s, a))
  {
    TableStep(s, a);
    CardsOkStep(s, a);
    UpdateOkStep(s, a);
  }

  lemma {:induction false} KnownRun(s: Source, actions: seq<Action>)
    requires KnownInv(s) && Runs(s, actions)
    ensures KnownInv(After(s, actions))
    decreases |actions|
  {
    if actions != [] {
      KnownStep(s, actions[0]);
      KnownRun(Apply(s, actions[0]), actions[1..]);
    }
  }

  /** The steps of the update under way. */
  predicate OwnStep(a: Action) {
    a.Resume? || a.Patched? || a.FinalReplied?
  }

  /** How many steps an update can still take. */
  function StepsLeft(pc: UpdatePc): nat {
    match pc
    case AwaitJob(_) => 3
    case AwaitOwn(_) => 1
    case Patch(_) => 2
    case FinalReply => 1
  }

  ghost predicate IsFinal(s: Source, text: string) {
    s.update.Some? && s.update.value.final && s.update.value.text == text
  }

  /** A final update goes on until it closes the source, with a card that shows its text unless Feishu
      returned no id for it, or until an exception ends it: that of the task it awaited or of its own
      reply. A failed patch is no such end: the reply follows. */
  lemma FinalStep(s: Source, a: Action, text: string)
    requires KnownInv(s) && Enabled(s, a) && IsFinal(s, text)
    ensures var t := Apply(s, a);
      || (t.closed.None? && IsFinal(t, text))
      || (t.closed == Some(text) && t.cardId == None && t.update == None
          && (a == FinalReplied(NoId) || exists card <- t.cards :: t.cards[card] == text))
      || (t.closed.None? && t.update == None
          && (a == FinalReplied(Raised) || (a == Resume && s.jobs[s.update.value.pc.job].Failed?)))
    ensures a == Patched(false) ==> Apply(s, a).update.Some? && Apply(s, a).update.value.pc.FinalReply?
    ensures OwnStep(a) ==>
      Apply(s, a).cards ==
        if a == Patched(true) then s.cards[s.update.value.pc.card := text]
        else if a == FinalReplied(Created) then s.cards[s.next := text]
        else s.cards
    ensures OwnStep(a) && Apply(s, a).update.Some? ==>
      StepsLeft(Apply(s, a).update.value.pc) < StepsLeft(s.update.value.pc)
  {
    var t := Apply(s, a);
    if a == Patched(true) { assert s.update.value.pc.card in t.cards; }
    if a == FinalReplied(Created) { assert s.next in t.cards; }
  }

  /** A card that shows the closing text. */
  ghost predicate ShownAt(s: Source, card: nat) {
    s.closed.Some? && card in s.cards && s.cards[card] == s.closed.value
  }

  lemma ShownStays(s: Source, a: Action, card: nat)
    requires KnownInv(s) && Enabled(s, a) && ShownAt(s, card)
    ensures ShownAt(Apply(s, a), card)
  {
  }

  lemma CloseStep(s: Source, a: Action)
    requires KnownInv(s) && Enabled(s, a) && s.closed.None? && Apply(s, a).closed.Some?
    ensures s.update.Some? && IsFinal(s, s.update.value.text) && Apply(s, a).closed.value == s.update.value.text
  {
  }

  /** In every run, whatever fails: once a source is closed a card shows the final text, which was the
      last one sent, or else Feishu returned no id for the final reply. */
  lemma {:induction false} FinalIsShown(s: Source, actions: seq<Action>)
    requires KnownInv(s) && Runs(s, actions)
    requires s.closed.Some? ==> exists card :: ShownAt(s, card)
    ensures var t := After(s, actions);
      t.closed.Some? ==>
        && t.sent != [] && t.sent[|t.sent| - 1] == t.closed.value
        && (FinalReplied(NoId) !in actions ==> exists card :: ShownAt(t, card))
    decreases |actions|
  {
    KnownRun(s, actions);
    if actions != [] && FinalReplied(NoId) !in actions {
      var a, t := actions[0], Apply(s, actions[0]);
      assert a in actions && forall b <- actions[1..] :: b in actions;
      KnownStep(s, a);
      if s.closed.Some? {
        var card :| ShownAt(s, card);
        ShownStays(s, a, card);
      } else if t.closed.Some? {
        CloseStep(s, a);
        FinalStep(s, a, s.update.value.text);
        var card :| card in t.cards && t.cards[card] == s.update.value.text;
        assert ShownAt(t, card);
      }
      FinalIsShown(t, actions[1..]);
    }
  }

  /** However its patches fail, a final update whose task has not failed gets its text onto a card. */
  lemma FallbackShows(s: Source, text: string) returns (actions: seq<Action>)
    requires KnownInv(s) && IsFinal(s, text)
    requires s.update.value.pc.AwaitJob? ==> !s.jobs[s.update.value.pc.job].Failed?
    ensures Runs(s, actions) && Patched(true) !in actions
    ensures After(s, actions).closed == Some(text) && exists card :: ShownAt(After(s, actions), card)
    decreases match s.update.value.pc
      case AwaitJob(job) => if s.jobs[job].Replying? then 3 else 2
      case Patch(_) => 1
      case _ => 0
  {
    var pc := s.update.value.pc;
    if pc.FinalReply? {
      var t := Apply(s, FinalReplied(Created));
      actions := [FinalReplied(Created)];
      assert actions[1..] == [] && Runs(t, []) && ShownAt(t, s.next);
    } else {
      var step := if pc.Patch? then Patched(false)
                  else if s.jobs[pc.job].Replying? then Replied(pc.job, NoId) else Resume;
      KnownStep(s, step);
      var more := FallbackShows(Apply(s, step), text);
      actions := [step] + more;
    }
  }

  // ------------------------------------------------------------------ updates before the final one

  /** An update goes to the running card if there is one, else it waits for the card being created, else
      the final one is a reply of its own and any other creates the running card with its text. */
  lemma SendMeets(s: Source, text: string, final: bool)
    requires KnownInv(s) && Enabled(s, Send(text, final))
    ensures var t := Apply(s, Send(text, final));
      && t.sent == s.sent + [text] && t.log == s.log && t.cards == s.cards && t.cardId == s.cardId
      && t.update.Some? && t.update.value.text == text && t.update.value.final == final
      && var pc := t.update.value.pc;
      && (if s.cardId.Some? then pc == Patch(s.cardId.value) && t.jobs == s.jobs
          else if s.task.Some? then pc == AwaitJob(s.task.value) && t.jobs == s.jobs
          else if final then pc == FinalReply && t.jobs == s.jobs
          else
            && pc.AwaitOwn? && pc.job !in s.jobs && t.task == Some(pc.job)
            && t.jobs == s.jobs[pc.job := Replying(text)])
  {
  }

  /** A creation that succeeds shows its text on a new card and makes that the running card; one that
      returns no id or raises shows nothing; once over, it makes room for another. */
  lemma CreationEnds(s: Source, job: nat, outcome: ReplyOutcome)
    requires KnownInv(s) && job in s.jobs && s.jobs[job].Replying?
    ensures Enabled(s, Replied(job, outcome))
    ensures var t := Apply(s, Replied(job, outcome));
      && JobOver(t, job) && t.update == s.update && t.log == s.log && t.task == Some(job)
      && (outcome.Created? ==>
            t.cardId.Some? && t.cardId.value !in s.cards && t.cards == s.cards[t.cardId.value := s.jobs[job].text]
            && t.jobs[job] == Finished(t.cardId))
      && (!outcome.Created? ==> t.cards == s.cards && t.cardId == s.cardId)
      && (outcome.NoId? ==> t.jobs[job] == Finished(None))
      && (outcome.Raised? ==> t.jobs[job] == Failed)
      && Enabled(t, Callback(job)) && Apply(t, Callback(job)) == t.(task := None)
  {
  }

  /** An update that is not final ends with its next step or goes on to patch the card it waited for. It is
      delivered, or lost in one of four ways: the task it awaited raised or returned no card, its own
      creation did, or the patch failed. */
  lemma PartialStep(s: Source, a: Action)
    requires KnownInv(s) && Enabled(s, a) && OwnStep(a) && !s.update.value.final
    ensures var t, Update(text, _, pc) := Apply(s, a), s.update.value;
      && t.closed == s.closed && t.sent == s.sent
      && (if a == Patched(true) then
            t == s.(update := None, cards := s.cards[pc.card := text], log := s.log + [Delivery(pc.card, text)])
          else if a.Patched? then t == s.(update := None)
          else if s.jobs[pc.job].Failed? || s.jobs[pc.job].card.None? then t == s.(update := None)
          else if pc.AwaitOwn? then
            t == s.(update := None, log := s.log + [Delivery(s.jobs[pc.job].card.value, text)])
          else t == s.(update := Some(Update(text, false, Patch(s.jobs[pc.job].card.value)))))
  {
  }

  /** While no card is known and no creation under way, an update that is not final gets its text onto a
      new card, which is the running card from then on. */
  lemma NewCardShows(s: Source, text: string) returns (actions: seq<Action>)
    requires KnownInv(s) && Enabled(s, Send(text, false)) && s.cardId.None?
    requires s.task.Some? ==> JobOver(s, s.task.value)
    ensures Runs(s, actions)
    ensures var t := After(s, actions);
      && t.cardId.Some? && t.cardId.value !in s.cards && t.cards == s.cards[t.cardId.value := text]
      && t.log == s.log + [Delivery(t.cardId.value, text)] && t.update.None?
    decreases s.task.Some?
  {
    if s.task.Some? {
      var a := Callback(s.task.value);
      KnownStep(s, a);
      var more := NewCardShows(Apply(s, a), text);
      actions := [a] + more;
    } else {
      var u := Apply(s, Send(text, false));
      KnownStep(s, Send(text, false));
      SendMeets(s, text, false);
      var job := u.update.value.pc.job;
      var v := Apply(u, Replied(job, Created));
      var w := Apply(v, Resume);
      actions := [Send(text, false), Replied(job, Created), Resume];
      assert actions[1..] == [Replied(job, Created), Resume] && actions[1..][1..] == [Resume];
      assert [Resume][1..] == [] && Runs(w, []) && Runs(v, [Resume]) && Runs(u, actions[1..]);
      assert After(v, [Resume]) == w && After(u, actions[1..]) == w;
    }
  }

  // ------------------------------------------------------------------ when nothing fails

  /** Every card creation returns an id and every patch succeeds. */
  predicate Smooth(actions: seq<Action>) {
    forall a <- actions :: (a.Replied? || a.FinalReplied? ==> a.outcome.Created?) && (a.Patched? ==> a.ok)
  }

  function Texts(log: seq<Delivery>): seq<string> {
    seq(|log|, i requires 0 <= i < |log| => log[i].text)
  }

  /** The text of the last delivery, or the one the card was created with. */
  function Latest(log: seq<Delivery>): string {
    if log == [] then "Working on it..." else log[|log| - 1].text
  }

  /** From preparation on there is one job and at most one card, and every delivery went to it. */
  ghost predicate CardInv(s: Source, job: nat) {
    && s.jobs.Keys == {job} && job < s.next
    && (s.task.Some? ==> s.task == Some(job))
    && |s.sent| == |s.log| + (if s.update.Some? then 1 else 0)
    && Texts(s.log) == s.sent[..|s.log|]
    && (s.update.Some? ==> s.sent[|s.log|] == s.update.value.text && s.closed.None?)
    && (match s.jobs[job]
        case Replying(text) =>
          && text == WORKING && s.cards == map[] && s.log == [] && s.closed.None?
          && s.cardId.None? && s.task == Some(job)
          && (s.update.Some? ==> s.update.value.pc == AwaitJob(job))
        case Finished(card) =>
          && card.Some? && s.cards == map[card.value := Latest(s.log)]
          && (forall d <- s.log :: d.card == card.value)
          && s.cardId == (if s.closed.None? then card else None)
          && (s.closed.Some? ==> s.log != [] && s.closed.value == Latest(s.log))
          && (s.update.Some? ==> s.update.value.pc == AwaitJob(job) || s.update.value.pc == Patch(card.value))
        case Failed => false)
  }

  lemma CardStep(s: Source, a: Action, job: nat)
    requires CardInv(s, job) && Enabled(s, a) && Smooth([a])
    ensures CardInv(Apply(s, a), job)
  {
    assert a in [a];
    if a.Patched? {
    } else if a.Send? {
      assert (s.sent + [a.text])[..|s.log|] == s.sent[..|s.log|];
    }
  }

  lemma {:induction false} CardRun(s: Source, actions: seq<Action>, job: nat)
    requires CardInv(s, job) && Runs(s, actions) && Smooth(actions)
    ensures CardInv(After(s, actions), job)
    decreases |actions|
  {
    if actions != [] {
      assert actions[0] in actions;
      CardStep(s, actions[0], job);
      CardRun(Apply(s, actions[0]), actions[1..], job);
    }
  }

  /** A final update is under way or done. */
  predicate FinalSent(s: Source) {
    s.closed.Some? || (s.update.Some? && s.update.value.final)
  }

  lemma {:induction false} FinalRun(s: Source, actions: seq<Action>, job: nat)
    requires CardInv(s, job) && Runs(s, actions) && Smooth(actions)
    ensures FinalSent(s) || (exists a <- actions :: a.Send? && a.final) ==> FinalSent(After(s, actions))
    decreases |actions|
  {
    if actions != [] {
      assert actions[0] in actions;
      CardStep(s, actions[0], job);
      assert actions == [actions[0]] + actions[1..];
      FinalRun(Apply(s, actions[0]), actions[1..], job);
    }
  }

  /** From preparation to the final message, if creations and patches succeed, there is exactly one
      running card: every update sent so far was delivered to it in order and it shows the last one.
      Once a final update was sent and is no longer under way, the source is closed: its card shows
      the final text and the id table has dropped it. */
  lemma OneRunningCard(actions: seq<Action>)
    requires Runs(Apply(NEW_SOURCE, Prepare), actions) && Smooth(actions)
    ensures var t := After(Apply(NEW_SOURCE, Prepare), actions);
            && |t.log| <= |t.sent| && Texts(t.log) == t.sent[..|t.log|] && (t.update.None? ==> |t.log| == |t.sent|)
            && (t.cards == map[] || exists card :: t.cards == map[card := Latest(t.log)])
            && (forall d <- t.log :: d.card in t.cards)
            && ((exists a <- actions :: a.Send? && a.final) && t.update.None? ==> t.closed.Some?)
            && (t.closed.Some? ==> t.cardId.None? && t.update.None? && t.log != [] && t.closed.value == Latest(t.log)
                                   && exists card :: t.cards == map[card := t.closed.value])
  {
    var s := Apply(NEW_SOURCE, Prepare);
    assert CardInv(s, 0);
    CardRun(s, actions, 0);
    FinalRun(s, actions, 0);
    var t := After(s, actions);
    if t.jobs[0].Finished? {
      assert t.cards == map[t.jobs[0].card.value := Latest(t.log)];
    }
  }
}
