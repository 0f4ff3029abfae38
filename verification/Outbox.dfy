/** The transactional outbox, one event at a time: any number of workers claim it, fan it out, fail and
    crash, stuck claims are taken back, and operators retry it. Events share nothing but their tables'
    unique keys, all of which contain the event, so one event's story is everybody's. */
module Outbox {
  import opened Wrappers
  import opened Int64
  import opened Sets

  type Id = nat

  /** The nil user id. */
  const NIL := 0

  // ----- Who is told

  predicate Wants(prefs: map<Id, bool>, user: Id) {
    user in prefs ==> prefs[user]
  }

  predicate Eligible(actor: Option<Id>, prefs: map<Id, bool>, user: Id) {
    user != NIL && actor != Some(user) && Wants(prefs, user)
  }

  /** The event's notification rows after a fan-out to `recipients`, on top of the rows already there. */
  function Queued(rows: seq<Id>, recipients: seq<Id>, actor: Option<Id>, prefs: map<Id, bool>): seq<Id> {
    if recipients == [] then rows
    else
      var before, user := Queued(rows, recipients[..|recipients| - 1], actor, prefs), recipients[|recipients| - 1];
      if Eligible(actor, prefs, user) && user !in before then before + [user] else before
  }

  predicate NoDuplicates(s: seq<Id>) {
    forall i, j :: 0 <= i < j < |s| ==> s[i] != s[j]
  }

  /** A fan-out leaves the old rows where they are and adds every eligible recipient that had none, once. */
  lemma {:induction false} QueuedExactly(rows: seq<Id>, recipients: seq<Id>, actor: Option<Id>, prefs: map<Id, bool>)
    requires NoDuplicates(rows)
    ensures
      var after := Queued(rows, recipients, actor, prefs);
      && rows <= after && NoDuplicates(after)
      && forall user :: user in after <==> user in rows || (user in recipients && Eligible(actor, prefs, user))
  {
    if recipients != [] {
      QueuedExactly(rows, recipients[..|recipients| - 1], actor, prefs);
      assert recipients == recipients[..|recipients| - 1] + [recipients[|recipients| - 1]];
    }
  }

  /** The worker's loop: skip the nil id, whoever was seen already, the actor, and whoever opted out; insert
      unless the row is there. `notified` is whose inbox changed. */
  method QueueNotifications(rows: seq<Id>, recipients: seq<Id>, actor: Option<Id>, prefs: map<Id, bool>)
      returns (after: seq<Id>, notified: seq<Id>)
    ensures after == Queued(rows, recipients, actor, prefs)
    ensures after == rows + notified
  {
    after, notified := rows, [];
    var seen: set<Id> := {};
    for i := 0 to |recipients|
      invariant after == Queued(rows, recipients[..i], actor, prefs) && after == rows + notified
      invariant forall user :: user in seen && Wants(prefs, user) ==> user in after
      invariant forall user :: user in seen ==> user != NIL && actor != Some(user)
    {
      var user := recipients[i];
      assert recipients[..i + 1][..i] == recipients[..i];
      if user == NIL || user in seen || actor == Some(user) {
        continue;
      }
      seen := seen + {user};
      if user in prefs && !prefs[user] {
        continue;
      }
      if user !in after {
        after, notified := after + [user], notified + [user];
      }
    }
    assert recipients[..|recipients|] == recipients;
  }

  // ----- One event

  datatype Status = Pending | Processing | Retry | Done | Failed

  datatype Phase = Handling | FannedOut | Broken

  /** A worker's claim: the attempt number it was given, and how far it got. */
  datatype Job = Job(seen: nat, phase: Phase)

  /** What a fan-out finds: the subject's recipients, their preferences, whether the web channel and its
      template are on, and the enabled webhooks that listen for the event. */
  datatype FanOut = FanOut(recipients: seq<Id>, prefs: map<Id, bool>, web: bool, hooks: seq<Id>)

  datatype Event = Event(status: Status, attempts: nat, actor: Option<Id>, jobs: map<Id, Job>,
                         inbox: seq<Id>, deliveries: seq<Id>)

  function NewEvent(actor: Option<Id>): Event {
    Event(Pending, 0, actor, map[], [], [])
  }

  /** `LoseCommit` is a commit that took effect and was reported as failed. */
  datatype Action =
    | Claim(job: Id)
    | Commit(job: Id, fan: FanOut)
    | LoseCommit(job: Id, fan: FanOut)
    | Break(job: Id)
    | Complete(job: Id)
    | Fail(job: Id)
    | Crash(job: Id)
    | Reclaim
    | OperatorRetry

  predicate Claimable(e: Event) {
    e.status.Pending? || e.status.Retry?
  }

  predicate InPhase(e: Event, job: Id, phase: Phase) {
    job in e.jobs && e.jobs[job].phase == phase
  }

  /** The fan-out transaction. */
  function Effects(e: Event, fan: FanOut): Event {
    e.(inbox := if fan.web then Queued(e.inbox, fan.recipients, e.actor, fan.prefs) else e.inbox,
       deliveries := Queued(e.deliveries, fan.hooks, None, map[]))
  }

  /** Neither completing nor failing looks at the status it replaces. */
  function Next(limit: nat, e: Event, a: Action): Event {
    match a
    case Claim(job) =>
      if Claimable(e) && job !in e.jobs then
        e.(status := Processing, attempts := e.attempts + 1, jobs := e.jobs[job := Job(e.attempts + 1, Handling)])
      else e
    case Commit(job, fan) =>
      if InPhase(e, job, Handling) then Effects(e, fan).(jobs := e.jobs[job := e.jobs[job].(phase := FannedOut)]) else e
    case LoseCommit(job, fan) =>
      if InPhase(e, job, Handling) then Effects(e, fan).(jobs := e.jobs[job := e.jobs[job].(phase := Broken)]) else e
    case Break(job) =>
      if InPhase(e, job, Handling) then e.(jobs := e.jobs[job := e.jobs[job].(phase := Broken)]) else e
    case Complete(job) => if InPhase(e, job, FannedOut) then e.(status := Done, jobs := e.jobs - {job}) else e
    case Fail(job) =>
      if InPhase(e, job, Broken) then
        e.(status := if e.jobs[job].seen >= limit then Failed else Retry, jobs := e.jobs - {job})
      else e
    case Crash(job) => e.(jobs := e.jobs - {job})
    case Reclaim => if e.status.Processing? then e.(status := Retry) else e
    case OperatorRetry => if e.status.Done? then e else e.(status := Pending, attempts := 0)
  }

  function Run(limit: nat, e: Event, actions: seq<Action>): Event {
    if actions == [] then e else Next(limit, Run(limit, e, actions[..|actions| - 1]), actions[|actions| - 1])
  }

  // ----- Effects are deduplicated

  predicate Clean(e: Event) {
    && NoDuplicates(e.inbox) && NoDuplicates(e.deliveries) && NIL !in e.inbox
    && (e.actor.Some? ==> e.actor.value !in e.inbox)
  }

  lemma EffectsClean(e: Event, fan: FanOut)
    requires Clean(e)
    ensures Clean(Effects(e, fan)) && e.inbox <= Effects(e, fan).inbox && e.deliveries <= Effects(e, fan).deliveries
    ensures fan.web ==> forall user :: user in fan.recipients && Eligible(e.actor, fan.prefs, user) ==>
              user in Effects(e, fan).inbox
    ensures forall hook :: hook in fan.hooks && hook != NIL ==> hook in Effects(e, fan).deliveries
  {
    if fan.web {
      QueuedExactly(e.inbox, fan.recipients, e.actor, fan.prefs);
    }
    QueuedExactly(e.deliveries, fan.hooks, None, map[]);
  }

  /** The step at which a fan-out commits, whether or not its worker learns of it. */
  predicate Commits(e: Event, a: Action) {
    (a.Commit? || a.LoseCommit?) && InPhase(e, a.job, Handling)
  }

  lemma CleanStep(limit: nat, e: Event, a: Action)
    requires Clean(e)
    ensures
      var after := Next(limit, e, a);
      Clean(after) && e.inbox <= after.inbox && e.deliveries <= after.deliveries && after.actor == e.actor
  {
    if Commits(e, a) {
      EffectsClean(e, a.fan);
    }
  }

  predicate EverCommits(limit: nat, e: Event, actions: seq<Action>) {
    && actions != []
    && var front := actions[..|actions| - 1];
    && (EverCommits(limit, e, front) || Commits(Run(limit, e, front), actions[|actions| - 1]))
  }

  /** A worker past its fan-out, or a done event, means a fan-out has committed. */
  predicate Honest(e: Event, committed: bool) {
    && (e.status.Done? ==> committed)
    && (forall job :: job in e.jobs && e.jobs[job].phase.FannedOut? ==> committed)
  }

  lemma HonestStep(limit: nat, e: Event, a: Action, committed: bool)
    requires Honest(e, committed)
    ensures Honest(Next(limit, e, a), committed || Commits(e, a))
  {
    var after := Next(limit, e, a);
    forall job | job in after.jobs && after.jobs[job].phase.FannedOut? ensures committed || Commits(e, a) {
      assert (job in e.jobs && e.jobs[job].phase.FannedOut?) || Commits(e, a);
    }
  }

  /** Whatever the workers do, each user has at most one notification of the event and each webhook at most
      one delivery, its actor and the nil user have none, and it is done only if a fan-out committed. */
  lemma {:induction false} Deduplicated(limit: nat, actor: Option<Id>, actions: seq<Action>)
    ensures
      var e := Run(limit, NewEvent(actor), actions);
      && Clean(e) && e.actor == actor
      && Honest(e, EverCommits(limit, NewEvent(actor), actions))
  {
    if actions != [] {
      var front, a := actions[..|actions| - 1], actions[|actions| - 1];
      Deduplicated(limit, actor, front);
      CleanStep(limit, Run(limit, NewEvent(actor), front), a);
      HonestStep(limit, Run(limit, NewEvent(actor), front), a, EverCommits(limit, NewEvent(actor), front));
    }
  }

  /** Everyone a committed fan-out was for has their notification from then on, and every webhook its
      delivery, however often the event is handled again. */
  lemma {:induction false} DeliveredForGood(limit: nat, actor: Option<Id>, actions: seq<Action>, more: seq<Action>,
                                            commit: Action)
    requires Commits(Run(limit, NewEvent(actor), actions), commit)
    ensures
      var e, fan := Run(limit, NewEvent(actor), actions + [commit] + more), commit.fan;
      && Clean(e)
      && (fan.web ==> forall user :: user in fan.recipients && Eligible(actor, fan.prefs, user) ==> user in e.inbox)
      && (forall hook :: hook in fan.hooks && hook != NIL ==> hook in e.deliveries)
    decreases |more|
  {
    var before := Run(limit, NewEvent(actor), actions);
    var all := actions + [commit] + more;
    Deduplicated(limit, actor, actions);
    if more == [] {
      assert all == actions + [commit] && all[..|all| - 1] == actions;
      EffectsClean(before, commit.fan);
    } else {
      var front := more[..|more| - 1];
      DeliveredForGood(limit, actor, actions, front, commit);
      assert all[..|all| - 1] == actions + [commit] + front;
      CleanStep(limit, Run(limit, NewEvent(actor), actions + [commit] + front), more[|more| - 1]);
    }
  }

  // ----- Done is not forever

  /** Every worker that still has the event is past its fan-out, with only the completion left to record. */
  predicate Settled(e: Event) {
    forall job :: job in e.jobs ==> e.jobs[job].phase.FannedOut?
  }

  lemma {:induction false} SettledStaysDone(limit: nat, e: Event, actions: seq<Action>)
    requires e.status.Done? && Settled(e)
    ensures Run(limit, e, actions).status.Done? && Settled(Run(limit, e, actions))
  {
    if actions != [] {
      SettledStaysDone(limit, e, actions[..|actions| - 1]);
    }
  }

  lemma UnsettledReopens(limit: nat, e: Event, job: Id)
    requires job in e.jobs && !e.jobs[job].phase.FannedOut?
    ensures !Run(limit, e, [Break(job), Fail(job)]).status.Done?
  {
    RunTwo(limit, e, Break(job), Fail(job));
    assert InPhase(Next(limit, e, Break(job)), job, Broken);
  }

  /** A done event stays done over every continuation if and only if every claim still in flight is past its
      fan-out: any other can fail, and failing does not look at the status. */
  lemma DoneForGoodIff(limit: nat, e: Event)
    requires e.status.Done?
    ensures (forall actions: seq<Action> :: Run(limit, e, actions).status.Done?) <==> Settled(e)
  {
    if Settled(e) {
      forall actions: seq<Action> ensures Run(limit, e, actions).status.Done? {
        SettledStaysDone(limit, e, actions);
      }
    } else {
      var job :| job in e.jobs && !e.jobs[job].phase.FannedOut?;
      UnsettledReopens(limit, e, job);
    }
  }

  lemma ClaimedTwice()
    ensures Run(10, NewEvent(None), [Claim(1), Reclaim, Claim(2)])
         == NewEvent(None).(status := Processing, attempts := 2,
                            jobs := map[1 := Job(1, Handling), 2 := Job(2, Handling)])
  {
    RunThree(10, NewEvent(None), Claim(1), Reclaim, Claim(2));
  }

  lemma FirstCompletes(e: Event, fan: FanOut)
    requires e.jobs == map[1 := Job(1, Handling), 2 := Job(2, Handling)]
    ensures Run(10, e, [Commit(1, fan), Complete(1)]).status.Done?
    ensures Run(10, e, [Commit(1, fan), Complete(1)]).jobs == map[2 := Job(2, Handling)]
  {
    RunTwo(10, e, Commit(1, fan), Complete(1));
  }

  /** Two workers on a reclaimed event: the second failure reopens what the first completed. */
  lemma DoneCanBeUndone(fan: FanOut)
    ensures
      var e := Run(10, Run(10, NewEvent(None), [Claim(1), Reclaim, Claim(2)]), [Commit(1, fan), Complete(1)]);
      e.status.Done? && Run(10, e, [Break(2), Fail(2)]).status.Retry?
  {
    var two := Run(10, NewEvent(None), [Claim(1), Reclaim, Claim(2)]);
    ClaimedTwice();
    FirstCompletes(two, fan);
    RunTwo(10, Run(10, two, [Commit(1, fan), Complete(1)]), Break(2), Fail(2));
  }

  lemma RunOne(limit: nat, e: Event, actions: seq<Action>, a: Action)
    ensures Run(limit, e, actions + [a]) == Next(limit, Run(limit, e, actions), a)
  {
    assert (actions + [a])[..|actions|] == actions;
  }

  lemma RunTwo(limit: nat, e: Event, a: Action, b: Action)
    ensures Run(limit, e, [a, b]) == Next(limit, Next(limit, e, a), b)
  {
    RunOne(limit, e, [], a);
    RunOne(limit, e, [a], b);
    assert [] + [a] == [a] && [a] + [b] == [a, b];
  }

  lemma RunThree(limit: nat, e: Event, a: Action, b: Action, c: Action)
    ensures Run(limit, e, [a, b, c]) == Next(limit, Next(limit, Next(limit, e, a), b), c)
  {
    RunTwo(limit, e, a, b);
    RunOne(limit, e, [a, b], c);
    assert [a, b] + [c] == [a, b, c];
  }

  // ----- Retries are bounded

  /** Whether the claim can still send the event back for another try. */
  predicate CanReopen(limit: nat, job: Job) {
    job.seen < limit && !job.phase.FannedOut?
  }

  function Open(limit: nat, e: Event): set<Id> {
    set job | job in e.jobs && CanReopen(limit, e.jobs[job])
  }

  /** How often the event has been claimed, and how often more it can be without being taken back. */
  function Potential(limit: nat, e: Event): int {
    e.attempts + (if Claimable(e) then 1 else 0) + |Open(limit, e)| + Greatest(0, limit - 1 - e.attempts)
  }

  predicate Reclaims(e: Event, a: Action) {
    a.Reclaim? && e.status.Processing?
  }

  function ReclaimCount(limit: nat, e: Event, actions: seq<Action>): nat {
    if actions == [] then 0
    else
      var front := actions[..|actions| - 1];
      ReclaimCount(limit, e, front) + if Reclaims(Run(limit, e, front), actions[|actions| - 1]) then 1 else 0
  }

  lemma OpenAfterDrop(limit: nat, e: Event, job: Id)
    ensures
      var after := e.(jobs := e.jobs - {job});
      |Open(limit, after)| == |Open(limit, e)| - if job in e.jobs && CanReopen(limit, e.jobs[job]) then 1 else 0
  {
    var after := e.(jobs := e.jobs - {job});
    assert Open(limit, after) == Open(limit, e) - {job};
  }

  lemma OpenAfterClaim(limit: nat, e: Event, job: Id, j: Job)
    requires job !in e.jobs
    ensures
      var after := e.(jobs := e.jobs[job := j]);
      |Open(limit, after)| == |Open(limit, e)| + if CanReopen(limit, j) then 1 else 0
  {
    var after := e.(jobs := e.jobs[job := j]);
    if CanReopen(limit, j) {
      assert Open(limit, after) == Open(limit, e) + {job};
    } else {
      assert Open(limit, after) == Open(limit, e);
    }
  }

  lemma PotentialStep(limit: nat, e: Event, a: Action)
    requires !a.OperatorRetry?
    ensures Potential(limit, Next(limit, e, a)) <= Potential(limit, e) + if Reclaims(e, a) then 1 else 0
  {
    var after := Next(limit, e, a);
    match a
    case Claim(job) =>
      if Claimable(e) && job !in e.jobs {
        OpenAfterClaim(limit, e, job, Job(e.attempts + 1, Handling));
        assert Open(limit, after) == Open(limit, e.(jobs := after.jobs));
      }
    case Commit(job, fan) => FewerElements(Open(limit, after), Open(limit, e));
    case LoseCommit(job, fan) => assert Open(limit, after) == Open(limit, e);
    case Break(job) => assert Open(limit, after) == Open(limit, e);
    case Complete(job) => DroppedOpen(limit, e, job, after);
    case Fail(job) => DroppedOpen(limit, e, job, after);
    case Crash(job) => DroppedOpen(limit, e, job, after);
    case Reclaim => assert Open(limit, after) == Open(limit, e);
  }

  lemma DroppedOpen(limit: nat, e: Event, job: Id, after: Event)
    requires after.jobs == e.jobs - {job} || after == e
    ensures after.jobs == e.jobs - {job} ==>
      |Open(limit, after)| == |Open(limit, e)| - if job in e.jobs && CanReopen(limit, e.jobs[job]) then 1 else 0
  {
    OpenAfterDrop(limit, e, job);
    assert after.jobs == e.jobs - {job} ==> Open(limit, after) == Open(limit, e.(jobs := e.jobs - {job}));
  }

  lemma {:induction false} PotentialRun(limit: nat, e: Event, actions: seq<Action>)
    requires OperatorRetry !in actions
    ensures Potential(limit, Run(limit, e, actions)) <= Potential(limit, e) + ReclaimCount(limit, e, actions)
  {
    if actions != [] {
      var front := actions[..|actions| - 1];
      PotentialRun(limit, e, front);
      PotentialStep(limit, Run(limit, e, front), actions[|actions| - 1]);
    }
  }

  /** Between operator retries the event is claimed at most `limit` times, and once more for each reclaim and
      for each claim that was still open when the operator stepped in. */
  lemma ClaimsBounded(limit: nat, e: Event, actions: seq<Action>)
    requires 1 <= limit && e.attempts == 0 && OperatorRetry !in actions
    ensures Run(limit, e, actions).attempts <= limit + |Open(limit, e)| + ReclaimCount(limit, e, actions)
  {
    PotentialRun(limit, e, actions);
  }

  /** Nobody intervenes: no reclaim and no operator. */
  predicate Quiet(actions: seq<Action>) {
    forall i :: 0 <= i < |actions| ==> !actions[i].Reclaim? && !actions[i].OperatorRetry?
  }

  lemma {:induction false} RunConcat(limit: nat, e: Event, actions: seq<Action>, more: seq<Action>)
    ensures Run(limit, e, actions + more) == Run(limit, Run(limit, e, actions), more)
  {
    if more == [] {
      assert actions + more == actions;
    } else {
      RunConcat(limit, e, actions, more[..|more| - 1]);
      assert (actions + more)[..|actions + more| - 1] == actions + more[..|more| - 1];
    }
  }

  /** An unused claim id. */
  lemma {:induction false} FreshBeyond(ids: set<Id>) returns (unused: Id)
    ensures forall id :: id in ids ==> unused > id
  {
    if ids == {} {
      unused := 0;
    } else {
      var id :| id in ids;
      var beyond := FreshBeyond(ids - {id});
      unused := if id < beyond then beyond else id + 1;
      forall other | other in ids ensures unused > other {
        assert other == id || other in ids - {id};
      }
    }
  }

  lemma ClaimBreaksFails(limit: nat, e: Event, job: Id)
    requires Claimable(e) && job !in e.jobs && e.attempts + 1 < limit
    ensures Run(limit, e, [Claim(job), Break(job), Fail(job)]) == e.(status := Retry, attempts := e.attempts + 1)
  {
    RunThree(limit, e, Claim(job), Break(job), Fail(job));
    var broken := Next(limit, Next(limit, e, Claim(job)), Break(job));
    assert broken.jobs == e.jobs[job := Job(e.attempts + 1, Broken)];
    assert broken.jobs - {job} == e.jobs;
  }

  lemma LastTry(limit: nat, e: Event, job: Id)
    requires Claimable(e) && job !in e.jobs && e.attempts + 1 == limit
    ensures Run(limit, e, [Claim(job)]).attempts == limit && Open(limit, Run(limit, e, [Claim(job)])) == Open(limit, e)
  {
    RunOne(limit, e, [], Claim(job));
    assert [] + [Claim(job)] == [Claim(job)];
  }

  /** A claimable event can be tried and fail until it is on its last try. */
  lemma {:induction false} UseUpTries(limit: nat, e: Event) returns (actions: seq<Action>)
    requires Claimable(e) && e.attempts < limit
    ensures Quiet(actions)
    ensures Run(limit, e, actions).attempts == limit && Open(limit, Run(limit, e, actions)) == Open(limit, e)
    decreases limit - e.attempts
  {
    var job := FreshBeyond(e.jobs.Keys);
    if e.attempts + 1 == limit {
      actions := [Claim(job)];
      LastTry(limit, e, job);
    } else {
      var failed := e.(status := Retry, attempts := e.attempts + 1);
      var first := [Claim(job), Break(job), Fail(job)];
      ClaimBreaksFails(limit, e, job);
      var rest := UseUpTries(limit, failed);
      actions := first + rest;
      TriesConcat(limit, e, first, rest, failed);
    }
  }

  lemma TriesConcat(limit: nat, e: Event, first: seq<Action>, rest: seq<Action>, failed: Event)
    requires Run(limit, e, first) == failed && failed.jobs == e.jobs
    ensures Run(limit, e, first + rest) == Run(limit, failed, rest) && Open(limit, failed) == Open(limit, e)
    ensures Quiet(first) && Quiet(rest) ==> Quiet(first + rest)
  {
    RunConcat(limit, e, first, rest);
  }

  lemma StaleFailureReopens(limit: nat, e: Event, job: Id, next: Id)
    requires job in e.jobs && CanReopen(limit, e.jobs[job]) && next !in e.jobs && limit <= e.attempts
    ensures
      var after := Run(limit, e, [Break(job), Fail(job), Claim(next)]);
      after.attempts == e.attempts + 1 && Open(limit, after) == Open(limit, e) - {job}
  {
    RunThree(limit, e, Break(job), Fail(job), Claim(next));
    var broken := Next(limit, e, Break(job));
    assert broken.jobs == e.jobs[job := e.jobs[job].(phase := Broken)];
    var failed := Next(limit, broken, Fail(job));
    assert failed.jobs == e.jobs - {job} && failed.status.Retry?;
  }

  /** Past the limit every claim that can reopen the event costs one more try. */
  lemma {:induction false} SpendOpen(limit: nat, e: Event) returns (actions: seq<Action>)
    requires limit <= e.attempts
    ensures Quiet(actions) && Run(limit, e, actions).attempts == e.attempts + |Open(limit, e)|
    decreases |Open(limit, e)|
  {
    if Open(limit, e) == {} {
      actions := [];
    } else {
      var job :| job in Open(limit, e);
      var next := FreshBeyond(e.jobs.Keys);
      var first := [Break(job), Fail(job), Claim(next)];
      StaleFailureReopens(limit, e, job, next);
      var rest := SpendOpen(limit, Run(limit, e, first));
      actions := first + rest;
      RunConcat(limit, e, first, rest);
    }
  }

  /** The bound is met from every claimable event: without a reclaim or an operator it can be claimed exactly
      `limit` times and once more for each open claim. */
  lemma ClaimsReached(limit: nat, e: Event) returns (actions: seq<Action>)
    requires Claimable(e) && e.attempts < limit
    ensures Quiet(actions) && Run(limit, e, actions).attempts == limit + |Open(limit, e)|
  {
    var first := UseUpTries(limit, e);
    var rest := SpendOpen(limit, Run(limit, e, first));
    actions := first + rest;
    RunConcat(limit, e, first, rest);
  }

  lemma {:induction false} QuietReclaimsNothing(limit: nat, e: Event, actions: seq<Action>)
    requires Quiet(actions)
    ensures ReclaimCount(limit, e, actions) == 0 && OperatorRetry !in actions
  {
    if actions != [] {
      QuietReclaimsNothing(limit, e, actions[..|actions| - 1]);
      assert actions == actions[..|actions| - 1] + [actions[|actions| - 1]];
    }
  }

  /** After an operator's retry the limit holds for every continuation nobody intervenes in, if and only if no
      open claim was overtaken. */
  lemma LimitHoldsIff(limit: nat, e: Event)
    requires 1 <= limit && e.attempts == 0 && Claimable(e)
    ensures (forall actions :: Quiet(actions) ==> Run(limit, e, actions).attempts <= limit) <==> Open(limit, e) == {}
  {
    if Open(limit, e) == {} {
      forall actions | Quiet(actions) ensures Run(limit, e, actions).attempts <= limit {
        QuietReclaimsNothing(limit, e, actions);
        ClaimsBounded(limit, e, actions);
      }
    } else {
      var actions := ClaimsReached(limit, e);
      assert Quiet(actions) && Run(limit, e, actions).attempts > limit;
    }
  }

  /** The bound for an event nobody has touched yet: retry limit plus reclaims. */
  lemma ClaimsBoundedFromNew(limit: nat, actor: Option<Id>, actions: seq<Action>)
    requires 1 <= limit && OperatorRetry !in actions
    ensures Run(limit, NewEvent(actor), actions).attempts <= limit + ReclaimCount(limit, NewEvent(actor), actions)
  {
    assert Open(limit, NewEvent(actor)) == {};
    ClaimsBounded(limit, NewEvent(actor), actions);
  }

  lemma Overtaken()
    ensures Run(2, NewEvent(None), [Claim(1), OperatorRetry]) == NewEvent(None).(jobs := map[1 := Job(1, Handling)])
  {
    RunTwo(2, NewEvent(None), Claim(1), OperatorRetry);
  }

  lemma OldClaimFails()
    ensures Run(2, NewEvent(None).(jobs := map[1 := Job(1, Handling)]), [Claim(2), Break(1), Fail(1)])
         == NewEvent(None).(status := Retry, attempts := 1, jobs := map[2 := Job(1, Handling)])
  {
    var e := NewEvent(None).(jobs := map[1 := Job(1, Handling)]);
    RunThree(2, e, Claim(2), Break(1), Fail(1));
    assert Next(2, e, Claim(2)).jobs == map[1 := Job(1, Handling), 2 := Job(1, Handling)];
  }

  lemma NewClaimFails()
    ensures
      var last := Run(2, NewEvent(None).(status := Retry, attempts := 1, jobs := map[2 := Job(1, Handling)]),
                      [Claim(3), Break(2), Fail(2)]);
      last.status.Retry? && last.attempts == 2 && 4 !in last.jobs
  {
    var e := NewEvent(None).(status := Retry, attempts := 1, jobs := map[2 := Job(1, Handling)]);
    RunThree(2, e, Claim(3), Break(2), Fail(2));
    assert Next(2, e, Claim(3)).jobs == map[2 := Job(1, Handling), 3 := Job(2, Handling)];
  }

  /** The claim the operator overtook does cost a try: with a limit of two the event is claimed a third time. */
  lemma StaleClaimCostsATry()
    ensures
      var reset := Run(2, NewEvent(None), [Claim(1), OperatorRetry]);
      var again := Run(2, reset, [Claim(2), Break(1), Fail(1)]);
      var last := Run(2, again, [Claim(3), Break(2), Fail(2)]);
      reset.attempts == 0 && last.status.Retry? && Next(2, last, Claim(4)).attempts == 3
  {
    Overtaken();
    OldClaimFails();
    NewClaimFails();
  }

  // ----- What can still be served

  /** An operator's retry makes any event that is not done claimable again from its first attempt, and touches
      nothing that was delivered or is being worked on. */
  lemma RetryRevives(limit: nat, e: Event)
    requires !e.status.Done?
    ensures
      var after := Run(limit, e, [OperatorRetry]);
      && after.status.Pending? && after.attempts == 0 && Claimable(after)
      && after.inbox == e.inbox && after.deliveries == e.deliveries && after.jobs == e.jobs && after.actor == e.actor
  {
    RunOne(limit, e, [], OperatorRetry);
    assert [] + [OperatorRetry] == [OperatorRetry];
  }

  /** It is then tried again as often as a new event, and once more for each claim the retry overtook. */
  lemma RetriedIsTried(limit: nat, e: Event) returns (actions: seq<Action>)
    requires 1 <= limit && !e.status.Done?
    ensures Quiet(actions) && Run(limit, e, [OperatorRetry] + actions).attempts == limit + |Open(limit, e)|
  {
    var after := Run(limit, e, [OperatorRetry]);
    RetryRevives(limit, e);
    assert Open(limit, after) == Open(limit, e);
    actions := ClaimsReached(limit, after);
    RunConcat(limit, e, [OperatorRetry], actions);
  }

  /** A claim, its fan-out and its completion, undisturbed. */
  lemma ServedOnce(limit: nat, e: Event, job: Id, fan: FanOut)
    requires Claimable(e) && job !in e.jobs
    ensures
      var after := Run(limit, e, [Claim(job), Commit(job, fan), Complete(job)]);
      after == Effects(e, fan).(status := Done, attempts := e.attempts + 1)
  {
    RunThree(limit, e, Claim(job), Commit(job, fan), Complete(job));
    var claimed := Next(limit, e, Claim(job));
    assert claimed.jobs[job := Job(e.attempts + 1, FannedOut)] - {job} == e.jobs;
  }

  /** So an event that an operator retries and a worker then handles is done, and everyone the fan-out finds who wants
      to know has been told, whatever had become of it before. */
  lemma RetriedIsDelivered(limit: nat, e: Event, job: Id, fan: FanOut)
    requires Clean(e) && !e.status.Done? && job !in e.jobs
    ensures
      var after := Run(limit, e, [OperatorRetry] + [Claim(job), Commit(job, fan), Complete(job)]);
      && after.status.Done? && after.attempts == 1 && Clean(after)
      && (fan.web ==> forall user :: user in fan.recipients && Eligible(e.actor, fan.prefs, user) ==>
            user in after.inbox)
      && (forall hook :: hook in fan.hooks && hook != NIL ==> hook in after.deliveries)
  {
    var retried := Run(limit, e, [OperatorRetry]);
    RetryRevives(limit, e);
    ServedOnce(limit, retried, job, fan);
    RunConcat(limit, e, [OperatorRetry], [Claim(job), Commit(job, fan), Complete(job)]);
    EffectsClean(retried, fan);
  }

  const NOBODY := FanOut([], map[], false, [])

  /** The event was given up, and no worker that still has it can complete it or put it back. */
  predicate GivenUp(limit: nat, e: Event) {
    e.status.Failed? && forall job :: job in e.jobs ==> e.jobs[job].phase.Broken? && e.jobs[job].seen >= limit
  }

  /** What the workers can still do about it without an operator. */
  ghost predicate CanBeDone(limit: nat, e: Event) {
    exists actions: seq<Action> :: OperatorRetry !in actions && Run(limit, e, actions).status.Done?
  }

  lemma {:induction false} GivenUpStays(limit: nat, e: Event, actions: seq<Action>)
    requires GivenUp(limit, e) && OperatorRetry !in actions
    ensures GivenUp(limit, Run(limit, e, actions))
  {
    if actions != [] {
      GivenUpStays(limit, e, actions[..|actions| - 1]);
    }
  }

  lemma ClaimableIsServed(limit: nat, e: Event)
    requires Claimable(e)
    ensures CanBeDone(limit, e)
  {
    var job := FreshBeyond(e.jobs.Keys);
    ServedOnce(limit, e, job, NOBODY);
    assert OperatorRetry !in [Claim(job), Commit(job, NOBODY), Complete(job)];
  }

  lemma ServedAfter(limit: nat, e: Event, a: Action)
    requires !a.OperatorRetry? && CanBeDone(limit, Next(limit, e, a))
    ensures CanBeDone(limit, e)
  {
    var actions :| OperatorRetry !in actions && Run(limit, Next(limit, e, a), actions).status.Done?;
    RunOne(limit, e, [], a);
    assert [] + [a] == [a];
    RunConcat(limit, e, [a], actions);
    assert OperatorRetry !in [a] + actions;
  }

  lemma DoneIsServed(limit: nat, e: Event)
    requires e.status.Done?
    ensures CanBeDone(limit, e)
  {
    var none: seq<Action> := [];
    assert Run(limit, e, none) == e && OperatorRetry !in none;
  }

  /** A worker that still has the event can complete it, or fail in time. */
  lemma WorkerServes(limit: nat, e: Event, job: Id)
    requires job in e.jobs && !(e.jobs[job].phase.Broken? && e.jobs[job].seen >= limit)
    ensures CanBeDone(limit, e)
  {
    match e.jobs[job].phase
    case FannedOut =>
      DoneIsServed(limit, Next(limit, e, Complete(job)));
      ServedAfter(limit, e, Complete(job));
    case Handling =>
      var committed := Next(limit, e, Commit(job, NOBODY));
      DoneIsServed(limit, Next(limit, committed, Complete(job)));
      ServedAfter(limit, committed, Complete(job));
      ServedAfter(limit, e, Commit(job, NOBODY));
    case Broken =>
      ClaimableIsServed(limit, Next(limit, e, Fail(job)));
      ServedAfter(limit, e, Fail(job));
  }

  /** Whatever its workers did, they can still get an event done without an operator if and only if it was not given
      up: nothing waits for ever in processing, and nothing that is to be tried again stays behind. */
  lemma CanBeDoneIff(limit: nat, e: Event)
    ensures CanBeDone(limit, e) <==> !GivenUp(limit, e)
  {
    if GivenUp(limit, e) {
      forall actions | OperatorRetry !in actions ensures !Run(limit, e, actions).status.Done? {
        GivenUpStays(limit, e, actions);
      }
    } else {
      match e.status
      case Done => DoneIsServed(limit, e);
      case Processing =>
        ClaimableIsServed(limit, Next(limit, e, Reclaim));
        ServedAfter(limit, e, Reclaim);
      case Failed =>
        var job :| job in e.jobs && !(e.jobs[job].phase.Broken? && e.jobs[job].seen >= limit);
        WorkerServes(limit, e, job);
      case _ => ClaimableIsServed(limit, e);
    }
  }

  // ----- Backoff

  function Power(k: nat): (r: nat)
    ensures r >= 1
  {
    if k == 0 then 1 else 2 * Power(k - 1)
  }

  function Clamp(attempts: int): (r: int)
    ensures 1 <= r <= 20
  {
    if attempts < 1 then 1 else if attempts > 20 then 20 else attempts
  }

  /** The wait before the next try: a 64-bit shift, and the ceiling when it overshoots or overflows. */
  function Backoff(attempts: int, base: int, max: int): int {
    var value := Wrap(base * Power(Clamp(attempts) - 1));
    if value > max || value <= 0 then max else value
  }

  lemma {:induction false} PowerGrows(j: nat, k: nat)
    requires j <= k
    ensures Power(j) <= Power(k)
  {
    if j < k {
      PowerGrows(j, k - 1);
    }
  }

  lemma PowerNineteen()
    ensures Power(19) == 524288
  {
    assert Power(7) == 128;
    assert Power(13) == 8192;
  }

  lemma ProductGrows(base: int, x: int, y: int)
    requires 0 <= base && x <= y
    ensures base * x <= base * y
  {
  }

  /** Whenever nineteen doublings of the base fit, the wait is the base, doubled with every attempt from the second to
      the twentieth, and capped. */
  lemma BackoffIsCappedExponential(attempts: int, base: int, max: int)
    requires 0 < base && base * 524288 <= MAX
    ensures Backoff(attempts, base, max) == Least(max, base * Power(Clamp(attempts) - 1))
    ensures attempts <= 1 ==> Backoff(attempts, base, max) == Least(max, base)
    ensures 1 <= attempts <= 20 ==> Backoff(attempts, base, max) == Least(max, base * Power(attempts - 1))
    ensures 20 <= attempts ==> Backoff(attempts, base, max) == Least(max, base * 524288)
  {
    PowerNineteen();
    PowerGrows(Clamp(attempts) - 1, 19);
    ProductGrows(base, Power(Clamp(attempts) - 1), 524288);
    ProductGrows(base, 1, Power(Clamp(attempts) - 1));
  }

  /** Later attempts never wait less. */
  lemma BackoffGrows(attempts: int, later: int, base: int, max: int)
    requires 0 < base && base * 524288 <= MAX && attempts <= later
    ensures Backoff(attempts, base, max) <= Backoff(later, base, max)
  {
    BackoffIsCappedExponential(attempts, base, max);
    BackoffIsCappedExponential(later, base, max);
    PowerGrows(Clamp(attempts) - 1, Clamp(later) - 1);
    ProductGrows(base, Power(Clamp(attempts) - 1), Power(Clamp(later) - 1));
  }

  const SECOND := 1_000_000_000
  const MINUTE := 60 * SECOND
  const HOUR := 60 * MINUTE

  /** The three queues' bases are well within the bound: a minute up to six hours for events, thirty seconds
      up to thirty minutes for mail and up to six hours for webhooks. */
  lemma QueuesBackOff(attempts: int)
    ensures Backoff(attempts, MINUTE, 6 * HOUR) == Least(6 * HOUR, MINUTE * Power(Clamp(attempts) - 1))
    ensures Backoff(attempts, 30 * SECOND, 30 * MINUTE) == Least(30 * MINUTE, 30 * SECOND * Power(Clamp(attempts) - 1))
    ensures Backoff(attempts, 30 * SECOND, 6 * HOUR) == Least(6 * HOUR, 30 * SECOND * Power(Clamp(attempts) - 1))
  {
    BackoffIsCappedExponential(attempts, MINUTE, 6 * HOUR);
    BackoffIsCappedExponential(attempts, 30 * SECOND, 30 * MINUTE);
    BackoffIsCappedExponential(attempts, 30 * SECOND, 6 * HOUR);
  }

  /** Without that bound the shift can wrap into a small wait. */
  lemma HugeBaseWraps()
    ensures Backoff(5, Power(60) + 1, MAX) == 16
  {
    PowerOfSixty();
    assert Power(4) == 16;
  }

  lemma PowerOfSixty()
    ensures Power(60) == 0x1000_0000_0000_0000
  {
    assert Power(10) == 1024 by { assert Power(5) == 32; }
    assert Power(20) == 1048576 by { assert Power(15) == 32768; }
    assert Power(30) == 0x4000_0000 by { assert Power(25) == 0x200_0000; }
    assert Power(40) == 0x100_0000_0000 by { assert Power(35) == 0x8_0000_0000; }
    assert Power(50) == 0x4_0000_0000_0000 by { assert Power(45) == 0x2000_0000_0000; }
    assert Power(55) == 0x80_0000_0000_0000;
  }

  // ----- One worker's pass over the queue

  /** How handling one event went: its fan-out committed, it reported an error, or both. */
  datatype Outcome = Succeeds(fan: FanOut) | Errs | Loses(fan: FanOut)

  /** What a pass does to a claimed event, in the event's own steps; a pass that stops before it leaves it claimed. */
  function Script(job: Id, reached: bool, outcome: Outcome): seq<Action> {
    if !reached then [Claim(job)]
    else
      match outcome
      case Errs => [Claim(job), Break(job), Fail(job)]
      case Loses(fan) => [Claim(job), LoseCommit(job, fan), Fail(job)]
      case Succeeds(fan) => [Claim(job), Commit(job, fan), Complete(job)]
  }

  function Handled(limit: nat, e: Event, job: Id, outcome: Outcome): Event {
    match outcome
    case Errs => Next(limit, Next(limit, e, Break(job)), Fail(job))
    case Loses(fan) => Next(limit, Next(limit, e, LoseCommit(job, fan)), Fail(job))
    case Succeeds(fan) => Next(limit, Next(limit, e, Commit(job, fan)), Complete(job))
  }

  function Dispatched(limit: nat, e: Event, job: Id, reached: bool, outcome: Outcome): Event {
    var claimed := Next(limit, e, Claim(job));
    if reached then Handled(limit, claimed, job, outcome) else claimed
  }

  /** A worker's pass is a run of each event it claims, so everything proved of runs holds of it. */
  lemma DispatchedIsRun(limit: nat, e: Event, job: Id, reached: bool, outcome: Outcome)
    ensures Dispatched(limit, e, job, reached, outcome) == Run(limit, e, Script(job, reached, outcome))
  {
    RunOne(limit, e, [], Claim(job));
    assert [] + [Claim(job)] == [Claim(job)];
    match outcome
    case Errs => RunThree(limit, e, Claim(job), Break(job), Fail(job));
    case Loses(fan) => RunThree(limit, e, Claim(job), LoseCommit(job, fan), Fail(job));
    case Succeeds(fan) => RunThree(limit, e, Claim(job), Commit(job, fan), Complete(job));
  }

  /** An event as it was emitted, taken by one pass that is not stopped: it is done, exactly the eligible
      recipients have one notification each, and exactly the listening webhooks one delivery. */
  lemma EmittedIsDelivered(limit: nat, actor: Option<Id>, job: Id, fan: FanOut)
    ensures
      var e := Dispatched(limit, NewEvent(actor), job, true, Succeeds(fan));
      && e.status.Done? && e.attempts == 1 && e.jobs == map[] && Clean(e)
      && (forall user :: user in e.inbox <==>
            && fan.web && user in fan.recipients && user != 0 && actor != Some(user)
            && !(user in fan.prefs && !fan.prefs[user]))
      && (forall hook :: hook in e.deliveries <==> hook in fan.hooks && hook != NIL)
  {
    var claimed := Next(limit, NewEvent(actor), Claim(job));
    EffectsClean(claimed, fan);
    if fan.web {
      QueuedExactly([], fan.recipients, actor, fan.prefs);
    }
    QueuedExactly([], fan.hooks, None, map[]);
    assert claimed.jobs == map[job := Job(1, Handling)];
    assert Next(limit, claimed, Commit(job, fan)).jobs - {job} == map[];
  }

  /** The event table, and the statements the workers and operators run on it. */
  class Queue {
    var events: map<Id, Event>
    const limit: nat

    constructor (limit: nat)
      ensures events == map[] && this.limit == limit
    {
      this.limit := limit;
      events := map[];
    }

    method EmitEvent(id: Id, actor: Option<Id>)
      requires id !in events
      modifies this
      ensures events == old(events)[id := NewEvent(actor)]
    {
      events := events[id := NewEvent(actor)];
    }

    /** One statement takes the whole batch. */
    method ClaimBatch(batch: seq<Id>, job: Id)
      requires forall id :: id in batch ==> id in events && Claimable(events[id]) && job !in events[id].jobs
      modifies this
      ensures events.Keys == old(events).Keys
      ensures forall id :: id in events ==>
        events[id] == if id in batch then Next(limit, old(events)[id], Claim(job)) else old(events)[id]
    {
      events := map id | id in events ::
        if id in batch then
          events[id].(status := Processing, attempts := events[id].attempts + 1,
                      jobs := events[id].jobs[job := Job(events[id].attempts + 1, Handling)])
        else events[id];
    }

    /** The fan-out transaction of one event, and whether its commit was reported to have gone through. */
    method HandleEvent(id: Id, job: Id, fan: FanOut, reported: bool)
      requires id in events && InPhase(events[id], job, Handling)
      modifies this
      ensures
        var commit := if reported then Commit(job, fan) else LoseCommit(job, fan);
        events == old(events)[id := Next(limit, old(events)[id], commit)]
    {
      var e := events[id];
      var inbox := e.inbox;
      if fan.web {
        var notified;
        inbox, notified := QueueNotifications(e.inbox, fan.recipients, e.actor, fan.prefs);
      }
      var deliveries, _ := QueueNotifications(e.deliveries, fan.hooks, None, map[]);
      events := events[id := e.(inbox := inbox, deliveries := deliveries,
                                jobs := e.jobs[job := e.jobs[job].(phase := if reported then FannedOut else Broken)])];
    }

    /** Retry or give up, by the attempt this worker claimed, whatever has happened to the row since. */
    method FailEvent(id: Id, job: Id)
      requires id in events && InPhase(events[id], job, Broken)
      modifies this
      ensures events == old(events)[id := Next(limit, old(events)[id], Fail(job))]
    {
      var status := Retry;
      if events[id].jobs[job].seen >= limit {
        status := Failed;
      }
      events := events[id := events[id].(status := status, jobs := events[id].jobs - {job})];
    }

    /** Claims the batch and works through it in order, up to the point where the process is told to stop. */
    method DispatchEvents(batch: seq<Id>, job: Id, outcomes: seq<Outcome>, stop: nat) returns (claimed: nat)
      requires NoDuplicates(batch) && |outcomes| == |batch| && stop <= |batch|
      requires forall id :: id in batch ==> id in events && Claimable(events[id]) && job !in events[id].jobs
      modifies this
      ensures claimed == |batch| && events.Keys == old(events).Keys
      ensures forall id :: id in events && id !in batch ==> events[id] == old(events)[id]
      ensures forall k :: 0 <= k < |batch| ==>
        events[batch[k]] == Dispatched(limit, old(events)[batch[k]], job, k < stop, outcomes[k])
    {
      ClaimBatch(batch, job);
      WorkThrough(batch, job, outcomes, stop);
      return |batch|;
    }

    method WorkThrough(batch: seq<Id>, job: Id, outcomes: seq<Outcome>, stop: nat)
      requires NoDuplicates(batch) && |outcomes| == |batch| && stop <= |batch|
      requires forall id :: id in batch ==> id in events && InPhase(events[id], job, Handling)
      modifies this
      ensures events.Keys == old(events).Keys
      ensures forall id :: id in events && id !in batch ==> events[id] == old(events)[id]
      ensures forall k :: 0 <= k < |batch| ==>
        events[batch[k]] == if k < stop then Handled(limit, old(events)[batch[k]], job, outcomes[k])
                            else old(events)[batch[k]]
    {
      for k := 0 to stop
        invariant events.Keys == old(events).Keys
        invariant forall id :: id in events && id !in batch ==> events[id] == old(events)[id]
        invariant forall j :: k <= j < |batch| ==> events[batch[j]] == old(events)[batch[j]]
        invariant forall j :: 0 <= j < k ==> events[batch[j]] == Handled(limit, old(events)[batch[j]], job, outcomes[j])
      {
        assert batch[k] in batch;
        assert forall j :: 0 <= j < |batch| && j != k ==> batch[j] != batch[k];
        HandleOne(batch[k], job, outcomes[k]);
      }
    }

    method HandleOne(id: Id, job: Id, outcome: Outcome)
      requires id in events && InPhase(events[id], job, Handling)
      modifies this
      ensures events == old(events)[id := Handled(limit, old(events)[id], job, outcome)]
    {
      match outcome
      case Errs =>
        events := events[id := Next(limit, events[id], Break(job))];
        FailEvent(id, job);
      case Loses(fan) =>
        HandleEvent(id, job, fan, false);
        FailEvent(id, job);
      case Succeeds(fan) =>
        HandleEvent(id, job, fan, true);
        events := events[id := events[id].(status := Done, jobs := events[id].jobs - {job})];
    }

    /** `oldEnough` are the events whose age says their worker must be gone. */
    method ReclaimStuck(oldEnough: set<Id>)
      modifies this
      ensures events.Keys == old(events).Keys
      ensures forall id :: id in events ==>
        events[id] == if id in oldEnough then Next(limit, old(events)[id], Reclaim) else old(events)[id]
    {
      events := map id | id in events ::
        if id in oldEnough && events[id].status.Processing? then events[id].(status := Retry) else events[id];
    }

    method RetryDomainEvent(id: Id) returns (ok: bool)
      modifies this
      ensures ok <==> id in old(events) && !old(events)[id].status.Done?
      ensures ok ==> id in events && events[id].status.Pending? && events[id].attempts == 0
      ensures events == if id in old(events) then old(events)[id := Next(limit, old(events)[id], OperatorRetry)]
                        else old(events)
    {
      if id !in events || events[id].status.Done? {
        return false;
      }
      events := events[id := events[id].(status := Pending, attempts := 0)];
      return true;
    }
  }
}
