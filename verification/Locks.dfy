/** The promise-based reader/writer lock, over every interleaving of promise resumptions, and the way `handle` queues
    work behind it. A step is what runs between two awaits of one call. */
module Locks {
  import opened Wrappers

  /** Where a call of `runExclusive` or `runNonExclusive` stands. `Entering` is a non-exclusive callback that has
      started, but whose promise is not registered yet: the callback is still in its synchronous part. */
  datatype Progress = Waiting | Draining(waitsFor: set<nat>) | Entering | Running | Settled | Done

  datatype Task = Task(exclusive: bool, progress: Progress, job: Option<nat>)

  /** `Called` is a call of `handle`, `Applied` the start of `applyRules` for it, `Dropped` its end after disposal. */
  datatype Entry = Called(job: nat) | Applied(job: nat) | Dropped(job: nat)

  datatype State = State(exclusivePromise: Option<nat>, nonExclusivePromises: set<nat>, tasks: seq<Task>,
                         pendingJobs: set<nat>, disposed: bool, log: seq<Entry>)

  datatype Event =
    | RunExclusive
    | RunNonExclusive
    | Handle(job: nat)
    | Resume(task: nat)
    | Register(task: nat)
    | Begin(task: nat)
    | Settle(task: nat)
    | Release(task: nat)
    | Dispose

  const INITIAL := State(None, {}, [], {}, false, [])

  function With(s: State, t: nat, progress: Progress): State
    requires t < |s.tasks|
  {
    s.(tasks := s.tasks[t := s.tasks[t].(progress := progress)])
  }

  predicate IsOver(task: Task) {
    task.progress.Settled? || task.progress.Done?
  }

  predicate Drained(s: State, waitsFor: set<nat>) {
    forall u | u in waitsFor :: u < |s.tasks| ==> IsOver(s.tasks[u])
  }

  function Submit(s: State, exclusive: bool, job: Option<nat>): State {
    s.(tasks := s.tasks + [Task(exclusive, Waiting, job)])
  }

  /** A waiting call looks at the exclusive promise again: it enters if there is none. */
  function Resumed(s: State, t: nat): State
    requires t < |s.tasks|
  {
    if !s.tasks[t].progress.Waiting? || s.exclusivePromise.Some? then s
    else if s.tasks[t].exclusive then With(s, t, Draining(s.nonExclusivePromises)).(exclusivePromise := Some(t))
    else With(s, t, Entering)
  }

  function Registered(s: State, t: nat): State
    requires t < |s.tasks|
  {
    if !s.tasks[t].progress.Entering? then s
    else With(s, t, Running).(nonExclusivePromises := s.nonExclusivePromises + {t})
  }

  /** The exclusive callback starts once every promise it collected has settled. */
  function Begun(s: State, t: nat): State
    requires t < |s.tasks|
  {
    if !(s.tasks[t].progress.Draining? && Drained(s, s.tasks[t].progress.waitsFor)) then s
    else
      match s.tasks[t].job
      case None => With(s, t, Running)
      case Some(j) =>
        With(s, t, Running).(pendingJobs := s.pendingJobs - {j},
                             log := s.log + [if s.disposed then Dropped(j) else Applied(j)])
  }

  function Released(s: State, t: nat): State
    requires t < |s.tasks|
  {
    if !s.tasks[t].progress.Settled? then s
    else if s.tasks[t].exclusive then With(s, t, Done).(exclusivePromise := None)
    else With(s, t, Done).(nonExclusivePromises := s.nonExclusivePromises - {t})
  }

  function Handled(s: State, job: nat): State {
    var t := s.(log := s.log + [Called(job)]);
    if job in s.pendingJobs then t else Submit(t.(pendingJobs := s.pendingJobs + {job}), true, Some(job))
  }

  /** One step; an event that does not apply changes nothing. */
  function Next(s: State, e: Event): State {
    match e
    case RunExclusive => Submit(s, true, None)
    case RunNonExclusive => Submit(s, false, None)
    case Handle(j) => Handled(s, j)
    case Resume(t) => if t < |s.tasks| then Resumed(s, t) else s
    case Register(t) => if t < |s.tasks| then Registered(s, t) else s
    case Begin(t) => if t < |s.tasks| then Begun(s, t) else s
    case Settle(t) => if t < |s.tasks| && s.tasks[t].progress.Running? then With(s, t, Settled) else s
    case Release(t) => if t < |s.tasks| then Released(s, t) else s
    case Dispose => s.(disposed := true)
  }

  function Run(s: State, events: seq<Event>): State {
    if events == [] then s else Next(Run(s, events[..|events| - 1]), events[|events| - 1])
  }

  /** The callback of the task is executing. */
  predicate InCallback(task: Task) {
    task.progress.Running? || task.progress.Entering?
  }

  predicate RunsAlone(task: Task) {
    task.exclusive && InCallback(task)
  }

  /** No callback runs beside an exclusive one. */
  ghost predicate Exclusive(s: State) {
    forall t, u :: 0 <= t < |s.tasks| && 0 <= u < |s.tasks| && t != u && RunsAlone(s.tasks[t]) ==>
      !InCallback(s.tasks[u])
  }

  /** The event lets an exclusive call in while a non-exclusive callback is in its synchronous part: that callback
      itself called `runExclusive` on the same lock before its first await. */
  ghost predicate Reenters(s: State, e: Event) {
    && e.Resume? && e.task < |s.tasks| && s.tasks[e.task].exclusive && s.tasks[e.task].progress.Waiting?
    && s.exclusivePromise.None?
    && exists u :: 0 <= u < |s.tasks| && s.tasks[u].progress.Entering?
  }

  ghost predicate NeverReenters(events: seq<Event>) {
    events != [] ==>
      NeverReenters(events[..|events| - 1]) && !Reenters(Run(INITIAL, events[..|events| - 1]), events[|events| - 1])
  }

  // Exclusion

  predicate HoldsLock(task: Task) {
    task.exclusive && (task.progress.Draining? || task.progress.Running? || task.progress.Settled?)
  }

  ghost predicate TaskInv(s: State, t: nat)
    requires t < |s.tasks|
    requires s.exclusivePromise.Some? ==> s.exclusivePromise.value < |s.tasks|
  {
    var task := s.tasks[t];
    && (HoldsLock(task) ==> s.exclusivePromise == Some(t))
    && (task.exclusive ==> !task.progress.Entering?)
    && (!task.exclusive ==> !task.progress.Draining?)
    && (!task.exclusive && task.progress.Running? ==> t in s.nonExclusivePromises)
    && (!task.exclusive && InCallback(task) && s.exclusivePromise.Some? ==>
          var holder := s.tasks[s.exclusivePromise.value].progress;
          task.progress.Running? && holder.Draining? && t in holder.waitsFor)
  }

  ghost predicate Inv(s: State) {
    && (s.exclusivePromise.Some? ==>
          s.exclusivePromise.value < |s.tasks| && HoldsLock(s.tasks[s.exclusivePromise.value]))
    && (forall t :: 0 <= t < |s.tasks| ==> TaskInv(s, t))
  }

  lemma SubmitKeeps(s: State, exclusive: bool, job: Option<nat>)
    requires Inv(s)
    ensures Inv(Submit(s, exclusive, job))
  {
    var s' := Submit(s, exclusive, job);
    forall t | 0 <= t < |s.tasks| ensures TaskInv(s', t) {
      assert TaskInv(s, t);
    }
  }

  lemma ResumeKeeps(s: State, t: nat)
    requires Inv(s) && t < |s.tasks| && !Reenters(s, Resume(t))
    ensures Inv(Resumed(s, t))
  {
    var s' := Resumed(s, t);
    forall u | 0 <= u < |s.tasks| ensures TaskInv(s', u) {
      assert TaskInv(s, u);
    }
  }

  lemma RegisterKeeps(s: State, t: nat)
    requires Inv(s) && t < |s.tasks|
    ensures Inv(Registered(s, t))
  {
    var s' := Registered(s, t);
    assert TaskInv(s, t);
    forall u | 0 <= u < |s.tasks| ensures TaskInv(s', u) {
      assert TaskInv(s, u);
    }
  }

  /** An exclusive callback starts: everything it waited for is over, and nothing could enter meanwhile. */
  lemma BeginKeeps(s: State, t: nat)
    requires Inv(s) && t < |s.tasks|
    ensures Inv(Begun(s, t))
  {
    var s' := Begun(s, t);
    assert TaskInv(s, t);
    forall u | 0 <= u < |s.tasks| ensures TaskInv(s', u) {
      assert TaskInv(s, u);
    }
  }

  lemma SettleKeeps(s: State, t: nat)
    requires Inv(s) && t < |s.tasks| && s.tasks[t].progress.Running?
    ensures Inv(With(s, t, Settled))
  {
    var s' := With(s, t, Settled);
    assert TaskInv(s, t);
    forall u | 0 <= u < |s.tasks| ensures TaskInv(s', u) {
      assert TaskInv(s, u);
    }
  }

  lemma ReleaseKeeps(s: State, t: nat)
    requires Inv(s) && t < |s.tasks|
    ensures Inv(Released(s, t))
  {
    var s' := Released(s, t);
    assert TaskInv(s, t);
    forall u | 0 <= u < |s.tasks| ensures TaskInv(s', u) {
      assert TaskInv(s, u);
    }
  }

  lemma SameTasks(s: State, s': State)
    requires Inv(s) && s'.tasks == s.tasks && s'.exclusivePromise == s.exclusivePromise
    requires s'.nonExclusivePromises == s.nonExclusivePromises
    ensures Inv(s')
  {
    forall t | 0 <= t < |s'.tasks| ensures TaskInv(s', t) {
      assert TaskInv(s, t);
    }
  }

  lemma NextKeeps(s: State, e: Event)
    requires Inv(s) && !Reenters(s, e)
    ensures Inv(Next(s, e))
  {
    match e
    case RunExclusive => SubmitKeeps(s, true, None);
    case RunNonExclusive => SubmitKeeps(s, false, None);
    case Handle(j) =>
      SubmitKeeps(s, true, Some(j));
      SameTasks(s, s.(log := s.log + [Called(j)]));
      SameTasks(Submit(s, true, Some(j)),
                Submit(s.(log := s.log + [Called(j)], pendingJobs := s.pendingJobs + {j}), true, Some(j)));
    case Resume(t) => if t < |s.tasks| { ResumeKeeps(s, t); }
    case Register(t) => if t < |s.tasks| { RegisterKeeps(s, t); }
    case Begin(t) => if t < |s.tasks| { BeginKeeps(s, t); }
    case Settle(t) => if t < |s.tasks| && s.tasks[t].progress.Running? { SettleKeeps(s, t); }
    case Release(t) => if t < |s.tasks| { ReleaseKeeps(s, t); }
    case Dispose => SameTasks(s, s.(disposed := true));
  }

  lemma {:induction false} RunKeeps(events: seq<Event>)
    requires NeverReenters(events)
    ensures Inv(Run(INITIAL, events))
  {
    if events == [] {
    } else {
      RunKeeps(events[..|events| - 1]);
      NextKeeps(Run(INITIAL, events[..|events| - 1]), events[|events| - 1]);
    }
  }

  /** Over every interleaving in which no callback re-enters, an exclusive callback runs alone. */
  lemma ExclusiveRunsAlone(events: seq<Event>)
    requires NeverReenters(events)
    ensures Exclusive(Run(INITIAL, events))
  {
    RunKeeps(events);
    var s := Run(INITIAL, events);
    forall t, u | 0 <= t < |s.tasks| && 0 <= u < |s.tasks| && t != u && RunsAlone(s.tasks[t])
      ensures !InCallback(s.tasks[u])
    {
      assert TaskInv(s, t) && TaskInv(s, u);
    }
  }

  // Re-entrance

  lemma {:induction false} RunAppends(s: State, a: seq<Event>, b: seq<Event>)
    ensures Run(s, a + b) == Run(Run(s, a), b)
    decreases |b|
  {
    if b == [] {
      assert a + b == a;
    } else {
      RunAppends(s, a, b[..|b| - 1]);
      assert (a + b)[..|a + b| - 1] == a + b[..|b| - 1];
    }
  }

  /** Any registered callbacks may settle, and nothing else need move. */
  lemma {:induction false} AllMaySettle(s: State, w: set<nat>) returns (more: seq<Event>)
    requires forall u :: u in w ==> u < |s.tasks| && (s.tasks[u].progress.Running? || s.tasks[u].progress.Settled?)
    ensures var s' := Run(s, more);
      && |s'.tasks| == |s.tasks| && Drained(s', w)
      && forall t :: 0 <= t < |s.tasks| && t !in w ==> s'.tasks[t] == s.tasks[t]
    decreases w
  {
    if w == {} {
      more := [];
    } else {
      var u :| u in w;
      var s1 := Next(s, Settle(u));
      var rest := AllMaySettle(s1, w - {u});
      more := [Settle(u)] + rest;
      RunAppends(s, [Settle(u)], rest);
      assert [Settle(u)][..0] == [];
      assert Run(s, [Settle(u)]) == s1;
    }
  }

  predicate AreOverlapping(task: Task, other: Task) {
    task.exclusive && task.progress.Running? && !other.exclusive && other.progress.Running?
  }

  /** An exclusive and a non-exclusive callback are executing side by side. */
  ghost predicate Overlaps(s: State) {
    exists t, u :: 0 <= t < |s.tasks| && 0 <= u < |s.tasks| && AreOverlapping(s.tasks[t], s.tasks[u])
  }

  lemma OverlapIsNotExclusive(s: State)
    requires Overlaps(s)
    ensures !Exclusive(s)
  {
    var t, u :| 0 <= t < |s.tasks| && 0 <= u < |s.tasks| && AreOverlapping(s.tasks[t], s.tasks[u]);
    assert RunsAlone(s.tasks[t]) && InCallback(s.tasks[u]);
  }

  lemma RunOne(s: State, e: Event)
    ensures Run(s, [e]) == Next(s, e)
  {
    assert [e][..0] == [];
  }

  ghost predicate RegisteredInv(s: State) {
    && (forall u :: u in s.nonExclusivePromises ==>
          u < |s.tasks| && !s.tasks[u].exclusive && (s.tasks[u].progress.Running? || s.tasks[u].progress.Settled?))
    && (forall t :: 0 <= t < |s.tasks| && s.tasks[t].exclusive ==> !s.tasks[t].progress.Entering?)
    && (forall t :: 0 <= t < |s.tasks| && !s.tasks[t].exclusive ==> !s.tasks[t].progress.Draining?)
  }

  lemma BreaksFrom(s: State, e: Event) returns (more: seq<Event>)
    requires RegisteredInv(s) && Reenters(s, e)
    ensures Overlaps(Run(Next(s, e), more))
  {
    var u :| 0 <= u < |s.tasks| && s.tasks[u].progress.Entering?;
    var s1 := Next(s, e);
    var s2 := Next(s1, Register(u));
    var settle := AllMaySettle(s2, s.nonExclusivePromises);
    var s3 := Run(s2, settle);
    assert s3.tasks[e.task] == s2.tasks[e.task] && s3.tasks[u] == s2.tasks[u];
    more := [Register(u)] + (settle + [Begin(e.task)]);
    RunOne(s1, Register(u));
    RunOne(s3, Begin(e.task));
    RunAppends(s1, [Register(u)], settle + [Begin(e.task)]);
    RunAppends(s2, settle, [Begin(e.task)]);
    var end := Run(s1, more);
    assert end == Begun(s3, e.task);
    assert AreOverlapping(end.tasks[e.task], end.tasks[u]);
  }

  lemma RegisteredNext(s: State, e: Event)
    requires RegisteredInv(s)
    ensures RegisteredInv(Next(s, e))
  {
  }

  lemma {:induction false} RegisteredRun(events: seq<Event>)
    ensures RegisteredInv(Run(INITIAL, events))
  {
    if events == [] {
    } else {
      RegisteredRun(events[..|events| - 1]);
      RegisteredNext(Run(INITIAL, events[..|events| - 1]), events[|events| - 1]);
    }
  }

  /** As soon as a callback re-enters, the run can go on to an exclusive callback that runs beside it: the callback ends
      its synchronous part and is registered, what the exclusive call collected settles, and the exclusive callback
      begins. */
  lemma ReentranceBreaksExclusion(events: seq<Event>, e: Event) returns (more: seq<Event>)
    requires NeverReenters(events) && Reenters(Run(INITIAL, events), e)
    ensures Overlaps(Run(INITIAL, events + [e] + more)) && !Exclusive(Run(INITIAL, events + [e] + more))
  {
    RegisteredRun(events);
    var s := Run(INITIAL, events);
    more := BreaksFrom(s, e);
    assert [e][..0] == [];
    RunAppends(INITIAL, events, [e]);
    RunAppends(INITIAL, events + [e], more);
    OverlapIsNotExclusive(Run(INITIAL, events + [e] + more));
  }

  const REENTRANT_CALL := [RunNonExclusive, Resume(0), RunExclusive]

  /** A non-exclusive callback that calls `runExclusive` on a free lock before its first await gets there. */
  lemma ReentranceIsReachable()
    ensures NeverReenters(REENTRANT_CALL) && Reenters(Run(INITIAL, REENTRANT_CALL), Resume(1))
  {
    var one, two := [RunNonExclusive], [RunNonExclusive, Resume(0)];
    assert one[..0] == [] && two[..1] == one && REENTRANT_CALL[..2] == two;
    assert Run(INITIAL, []) == INITIAL && NeverReenters([]);
    var s1 := Run(INITIAL, one);
    assert s1 == Next(INITIAL, RunNonExclusive) && NeverReenters(one);
    var s2 := Run(INITIAL, two);
    assert s2 == Next(s1, Resume(0)) && NeverReenters(two);
    assert Run(INITIAL, REENTRANT_CALL) == Next(s2, RunExclusive);
    assert Next(s2, RunExclusive).tasks[0].progress.Entering?;
  }

  // Wake-ups

  predicate IsQueued(task: Task, job: nat) {
    task.job == Some(job) && (task.progress.Waiting? || task.progress.Draining?)
  }

  ghost predicate Queued(s: State, job: nat) {
    exists t :: 0 <= t < |s.tasks| && IsQueued(s.tasks[t], job)
  }

  /** Work for the job started after entry `i` of the log. */
  ghost predicate StartedAfter(s: State, i: nat, job: nat) {
    exists k :: i < k < |s.log| && (s.log[k] == Applied(job) || s.log[k] == Dropped(job))
  }

  ghost predicate WakeInv(s: State) {
    && (forall j :: j in s.pendingJobs ==> Queued(s, j))
    && (forall i :: 0 <= i < |s.log| && s.log[i].Called? ==>
          s.log[i].job in s.pendingJobs || StartedAfter(s, i, s.log[i].job))
    && (forall i :: 0 <= i < |s.log| && s.log[i].Dropped? ==> s.disposed)
    && (forall t :: 0 <= t < |s.tasks| && s.tasks[t].job.Some? ==> s.tasks[t].exclusive)
  }

  lemma QueuedStays(s: State, s': State, job: nat, moved: nat)
    requires Queued(s, job) && |s.tasks| <= |s'.tasks|
    requires forall t :: 0 <= t < |s.tasks| && t != moved ==> s'.tasks[t] == s.tasks[t]
    requires moved < |s.tasks| && IsQueued(s.tasks[moved], job) ==> IsQueued(s'.tasks[moved], job)
    ensures Queued(s', job)
  {
    var t :| 0 <= t < |s.tasks| && IsQueued(s.tasks[t], job);
    assert IsQueued(s'.tasks[t], job);
  }

  lemma StartedStays(s: State, s': State, i: nat, job: nat)
    requires StartedAfter(s, i, job) && s.log <= s'.log
    ensures StartedAfter(s', i, job)
  {
    var k :| i < k < |s.log| && (s.log[k] == Applied(job) || s.log[k] == Dropped(job));
    assert s'.log[k] == s.log[k];
  }

  lemma WakeNext(s: State, e: Event)
    requires WakeInv(s)
    ensures WakeInv(Next(s, e))
  {
    var s' := Next(s, e);
    var moved := match e case Resume(t) => t case Register(t) => t case Begin(t) => t case Settle(t) => t
                         case Release(t) => t case _ => |s.tasks|;
    assert s.log <= s'.log;
    forall j | j in s'.pendingJobs ensures Queued(s', j) {
      if j in s.pendingJobs {
        QueuedStays(s, s', j, moved);
      } else {
        assert IsQueued(s'.tasks[|s.tasks|], j);
      }
    }
    forall i | 0 <= i < |s'.log| && s'.log[i].Called?
      ensures s'.log[i].job in s'.pendingJobs || StartedAfter(s', i, s'.log[i].job)
    {
      var j := s'.log[i].job;
      if i < |s.log| {
        if StartedAfter(s, i, j) {
          StartedStays(s, s', i, j);
        } else if j !in s'.pendingJobs {
          assert s'.log[|s.log|] == Applied(j) || s'.log[|s.log|] == Dropped(j);
        }
      }
    }
  }

  lemma {:induction false} WakeRun(events: seq<Event>)
    ensures WakeInv(Run(INITIAL, events))
  {
    if events == [] {
    } else {
      WakeRun(events[..|events| - 1]);
      WakeNext(Run(INITIAL, events[..|events| - 1]), events[|events| - 1]);
    }
  }

  /** Every call of `handle` is followed by an `applyRules` on its round state that starts after it, or one is still
      queued behind the lock; work is dropped only after disposal. This holds for every interleaving. */
  lemma NoLostWakeUp(events: seq<Event>, i: nat, job: nat)
    requires i < |Run(INITIAL, events).log| && Run(INITIAL, events).log[i] == Called(job)
    ensures var s := Run(INITIAL, events);
      || Queued(s, job)
      || (exists k :: i < k < |s.log| && s.log[k] == Applied(job))
      || (s.disposed && exists k :: i < k < |s.log| && s.log[k] == Dropped(job))
  {
    WakeRun(events);
    var s := Run(INITIAL, events);
    assert s.log[i].Called?;
    if s.log[i].job !in s.pendingJobs {
      var k :| i < k < |s.log| && (s.log[k] == Applied(job) || s.log[k] == Dropped(job));
    }
  }
}
