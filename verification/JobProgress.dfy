/** The job-progress hook: WebSocket events racing with polls that may answer late, and the
    memory of completed jobs that keeps stale answers from being shown. Every sequence of
    actions is a run; an action that is not possible changes nothing. */
module JobProgress {
  import opened Collections

  const MEMORY := 30000

  datatype Job = Job(jobId: string, status: string)

  /** What a poll may come back with, whenever it was sent. */
  datatype Response =
    | NotFound
    | HttpError                 // any other error status, or no answer at all
    | NoActiveJob               // no job, or one without an id
    | ActiveJob(job: Job)

  /** A pending timeout that forgets a job: the completion it was set for. */
  datatype Expiry = Expiry(jobId: string, due: int, source: nat)

  datatype Completion = Completion(jobId: string, time: int)

  datatype State = State(progress: Option<Job>, error: Option<string>, isStuck: bool, completedJobs: set<string>,
                         now: int, pending: set<Expiry>, log: seq<Completion>)

  const INITIAL := State(None, None, false, {}, 0, {}, [])

  const STUCK_MESSAGE := "Job appears to be stuck and may need manual intervention"

  datatype Action =
    | ProgressEvent(job: Job, matches: bool)
    | CompletedEvent(jobId: string, matches: bool)       // "" when the event carries no id
    | FailedEvent(error: string, matches: bool)
    | StuckEvent(matches: bool)
    | PollAnswer(response: Response)
    | LockReleased(success: bool)
    | Tick(d: nat)                                       // time passes, but not past a due timeout
    | Forget(expiry: Expiry)                             // a due timeout runs

  function Step(s: State, a: Action): State {
    match a
    case ProgressEvent(job, matches) =>
      if !matches || job.jobId in s.completedJobs then s else s.(progress := Some(job), error := None)
    case CompletedEvent(jobId, matches) =>
      if !matches then s else
      var t := s.(progress := None, error := None);
      if jobId == "" then t else
      t.(completedJobs := t.completedJobs + {jobId}, log := t.log + [Completion(jobId, t.now)],
         pending := t.pending + {Expiry(jobId, t.now + MEMORY, |t.log|)})
    case FailedEvent(error, matches) => if !matches then s else s.(progress := None, error := Some(error))
    case StuckEvent(matches) => if !matches then s else s.(isStuck := true, error := Some(STUCK_MESSAGE))
    case PollAnswer(response) =>
      (match response
       case NotFound => s.(error := None)
       case HttpError => s
       case NoActiveJob => s
       case ActiveJob(job) => if job.jobId in s.completedJobs then s else s.(progress := Some(job), error := None))
    case LockReleased(success) => if !success then s else s.(progress := None, isStuck := false, error := None)
    case Tick(d) => if exists e <- s.pending :: e.due < s.now + d then s else s.(now := s.now + d)
    case Forget(e) =>
      if e !in s.pending || e.due > s.now then s
      else s.(pending := s.pending - {e}, completedJobs := s.completedJobs - {e.jobId})
  }

  function Run(actions: seq<Action>): State {
    if actions == [] then INITIAL else Step(Run(actions[..|actions| - 1]), actions[|actions| - 1])
  }

  // ----- the hook as an object -----

  class Hook {
    var progress: Option<Job>
    var error: Option<string>
    var isStuck: bool
    var completedJobs: set<string>
    var now: int
    var pending: set<Expiry>
    var log: seq<Completion>

    constructor ()
      ensures Valid() && View() == INITIAL
    {
      progress, error, isStuck, completedJobs, now, pending, log := None, None, false, {}, 0, {}, [];
    }

    function View(): State
      reads this
    {
      State(progress, error, isStuck, completedJobs, now, pending, log)
    }

    /** The invariants of all runs; in particular what is shown is not remembered as completed. */
    ghost predicate Valid()
      reads this
    {
      Invariant(View())
    }

    method OnProgress(job: Job, matches: bool)
      requires Valid()
      modifies this
      ensures View() == Step(old(View()), ProgressEvent(job, matches))
      ensures Valid()
    {
      StepKeepsInvariant(View(), ProgressEvent(job, matches));
      if matches {
        if job.jobId in completedJobs {
          return;
        }
        progress := Some(job);
        error := None;
      }
    }

    /** A completion in scope: remember the job, set the timeout that forgets it, clear. */
    method Complete(jobId: string)
      modifies this
      ensures View() == Step(old(View()), CompletedEvent(jobId, true))
    {
      if jobId != "" {
        completedJobs := completedJobs + {jobId};
        pending := pending + {Expiry(jobId, now + MEMORY, |log|)};
        log := log + [Completion(jobId, now)];
      }
      progress := None;
      error := None;
    }

    method OnCompleted(jobId: string, matches: bool)
      requires Valid()
      modifies this
      ensures View() == Step(old(View()), CompletedEvent(jobId, matches))
      ensures Valid()
    {
      StepKeepsInvariant(View(), CompletedEvent(jobId, matches));
      if matches {
        Complete(jobId);
      }
    }

    method OnFailed(message: string, matches: bool)
      requires Valid()
      modifies this
      ensures View() == Step(old(View()), FailedEvent(message, matches))
      ensures Valid()
    {
      StepKeepsInvariant(View(), FailedEvent(message, matches));
      if matches {
        progress := None;
        error := Some(message);
      }
    }

    method OnStuck(matches: bool)
      requires Valid()
      modifies this
      ensures View() == Step(old(View()), StuckEvent(matches))
      ensures Valid()
    {
      StepKeepsInvariant(View(), StuckEvent(matches));
      if matches {
        isStuck := true;
        error := Some(STUCK_MESSAGE);
      }
    }

    /** The rest of `fetchActiveJob` once its response is there. */
    method FetchActiveJobAnswered(response: Response)
      requires Valid()
      modifies this
      ensures View() == Step(old(View()), PollAnswer(response))
      ensures Valid()
      ensures old(progress).Some? ==> progress.Some?
    {
      StepKeepsInvariant(View(), PollAnswer(response));
      if response.NotFound? {
        error := None;
        return;
      }
      if response.HttpError? {
        return;
      }
      if response.ActiveJob? {
        if response.job.jobId in completedJobs {
          return;
        }
        progress := Some(response.job);
        error := None;
      }
    }

    method ReleaseLockAnswered(success: bool)
      requires Valid()
      modifies this
      ensures View() == Step(old(View()), LockReleased(success))
      ensures Valid()
    {
      StepKeepsInvariant(View(), LockReleased(success));
      if success {
        progress := None;
        isStuck := false;
        error := None;
      }
    }

    method ExpiryFires(e: Expiry)
      requires Valid() && e in pending && e.due <= now
      modifies this
      ensures View() == Step(old(View()), Forget(e))
      ensures Valid()
    {
      StepKeepsInvariant(View(), Forget(e));
      pending := pending - {e};
      completedJobs := completedJobs - {e.jobId};
    }
  }

  // ----- what is shown -----

  ghost predicate ShownIsLive(s: State) {
    s.progress.Some? ==> s.progress.value.jobId !in s.completedJobs
  }

  /** Every pending timeout belongs to a logged completion and is not overdue. */
  ghost predicate ExpiriesSane(s: State) {
    && (forall i :: 0 <= i < |s.log| ==> s.log[i].time <= s.now)
    && (forall i, j :: 0 <= i < j < |s.log| ==> s.log[i].time <= s.log[j].time)
    && (forall e <- s.pending ::
          && e.source < |s.log| && s.log[e.source].jobId == e.jobId
          && e.due == s.log[e.source].time + MEMORY && s.now <= e.due)
  }

  /** No timeout of the job has come due since completion `i`. */
  ghost predicate Fresh(log: seq<Completion>, now: int, i: nat) {
    && i < |log|
    && forall k :: 0 <= k < |log| && log[k].jobId == log[i].jobId ==>
         log[k].time + 30000 < log[i].time || now < log[k].time + 30000
  }

  /** The same, but for timeouts that come due right at the completion or right now. */
  ghost predicate NearlyFresh(log: seq<Completion>, now: int, i: nat) {
    && i < |log|
    && forall k :: 0 <= k < |log| && log[k].jobId == log[i].jobId ==>
         log[k].time + 30000 <= log[i].time || now <= log[k].time + 30000
  }

  /** A job with a fresh completion is remembered. */
  ghost predicate Remembers(s: State) {
    forall i: nat :: Fresh(s.log, s.now, i) ==> s.log[i].jobId in s.completedJobs
  }

  ghost predicate Fired(s: State, k: nat) {
    k < |s.log| && Expiry(s.log[k].jobId, s.log[k].time + MEMORY, k) !in s.pending
  }

  /** Completion `i` of the job came after every timeout of the job that has fired. */
  ghost predicate Outlives(s: State, id: string, i: nat) {
    i < |s.log| && s.log[i].jobId == id
    && forall k: nat :: Fired(s, k) && s.log[k].jobId == id ==> s.log[k].time + MEMORY <= s.log[i].time
  }

  /** A remembered job was completed after all its fired timeouts. */
  ghost predicate Forgets(s: State) {
    && (forall k: nat :: Fired(s, k) ==> s.log[k].time + MEMORY <= s.now)
    && (forall id <- s.completedJobs :: exists i: nat :: Outlives(s, id, i))
  }

  lemma CompletionKeepsMemory(s: State, jobId: string)
    requires ExpiriesSane(s) && Remembers(s) && jobId != ""
    ensures var t := Step(s, CompletedEvent(jobId, true));
      ExpiriesSane(t) && Remembers(t)
  {
    var t := Step(s, CompletedEvent(jobId, true));
    forall i: nat | Fresh(t.log, t.now, i) ensures t.log[i].jobId in t.completedJobs {
      if i < |s.log| {
        assert forall k :: 0 <= k < |s.log| ==> t.log[k] == s.log[k];
        assert Fresh(s.log, s.now, i);
      }
    }
  }

  lemma ForgettingKeepsMemory(s: State, e: Expiry)
    requires ExpiriesSane(s) && Remembers(s)
    ensures var t := Step(s, Forget(e));
      ExpiriesSane(t) && Remembers(t)
  {
    assert e in s.pending ==> e.source < |s.log| && s.log[e.source].jobId == e.jobId;
  }

  lemma CompletionKeepsForgets(s: State, jobId: string)
    requires ExpiriesSane(s) && Forgets(s) && jobId != ""
    ensures Forgets(Step(s, CompletedEvent(jobId, true)))
  {
    var t := Step(s, CompletedEvent(jobId, true));
    CompletionFiresNone(s, jobId);
    forall id <- t.completedJobs ensures exists i: nat :: Outlives(t, id, i) {
      if id == jobId {
        assert Outlives(t, id, |s.log|);
      } else {
        StillOutlives(s, t, id);
      }
    }
  }

  /** Nothing fired in between: what outlived every fired timeout still does. */
  lemma StillOutlives(s: State, t: State, id: string)
    requires Forgets(s) && id in s.completedJobs && s.log <= t.log
    requires forall k: nat :: Fired(t, k) && t.log[k].jobId == id ==> Fired(s, k)
    ensures exists i: nat :: Outlives(t, id, i)
  {
    var i: nat :| Outlives(s, id, i);
    assert Outlives(t, id, i);
  }

  lemma CompletionFiresNone(s: State, jobId: string)
    requires ExpiriesSane(s) && jobId != ""
    ensures forall k: nat :: Fired(Step(s, CompletedEvent(jobId, true)), k) ==> Fired(s, k)
  {
  }

  lemma ForgettingKeepsForgets(s: State, e: Expiry)
    requires ExpiriesSane(s) && Forgets(s)
    ensures Forgets(Step(s, Forget(e)))
  {
    var t := Step(s, Forget(e));
    if t != s {
      forall k: nat | Fired(t, k) ensures Fired(s, k) || k == e.source {
      }
      forall id <- t.completedJobs ensures exists i: nat :: Outlives(t, id, i) {
        var i: nat :| Outlives(s, id, i);
        assert Outlives(t, id, i);
      }
    }
  }

  lemma OthersKeepForgets(s: State, a: Action)
    requires ExpiriesSane(s) && Forgets(s) && !a.Forget? && (a.CompletedEvent? ==> !a.matches || a.jobId == "")
    ensures Forgets(Step(s, a))
  {
    var t := Step(s, a);
    assert t.log == s.log && t.pending == s.pending && t.completedJobs == s.completedJobs && s.now <= t.now;
    forall k: nat | Fired(t, k) ensures Fired(s, k) {
    }
    forall id <- t.completedJobs ensures exists i: nat :: Outlives(t, id, i) {
      var i: nat :| Outlives(s, id, i);
      assert Outlives(t, id, i);
    }
  }

  lemma StepKeepsForgets(s: State, a: Action)
    requires ExpiriesSane(s) && Forgets(s)
    ensures Forgets(Step(s, a))
  {
    if a.CompletedEvent? && a.matches && a.jobId != "" {
      CompletionKeepsForgets(s, a.jobId);
    } else if a.Forget? {
      ForgettingKeepsForgets(s, a.expiry);
    } else {
      OthersKeepForgets(s, a);
    }
  }

  lemma StepKeepsShown(s: State, a: Action)
    requires ShownIsLive(s)
    ensures ShownIsLive(Step(s, a))
  {
  }

  lemma TickKeepsMemory(s: State, d: nat)
    requires ExpiriesSane(s) && Remembers(s)
    ensures ExpiriesSane(Step(s, Tick(d))) && Remembers(Step(s, Tick(d)))
  {
    var t := Step(s, Tick(d));
    forall i: nat | Fresh(t.log, t.now, i) ensures Fresh(s.log, s.now, i) {
    }
  }

  /** The steps that touch only what is shown. */
  lemma OthersKeepMemory(s: State, t: State)
    requires ExpiriesSane(s) && Remembers(s)
    requires t.log == s.log && t.pending == s.pending && t.completedJobs == s.completedJobs && t.now == s.now
    ensures ExpiriesSane(t) && Remembers(t)
  {
  }

  lemma StepKeepsSane(s: State, a: Action)
    requires ExpiriesSane(s) && Remembers(s)
    ensures ExpiriesSane(Step(s, a)) && Remembers(Step(s, a))
  {
    match a
    case CompletedEvent(jobId, matches) =>
      if matches && jobId != "" {
        CompletionKeepsMemory(s, jobId);
      } else {
        OthersKeepMemory(s, Step(s, a));
      }
    case Forget(e) => ForgettingKeepsMemory(s, e);
    case Tick(d) => TickKeepsMemory(s, d);
    case _ => OthersKeepMemory(s, Step(s, a));
  }

  /** What every step keeps. */
  ghost predicate Invariant(s: State) {
    ShownIsLive(s) && ExpiriesSane(s) && Remembers(s) && Forgets(s)
  }

  lemma StepKeepsInvariant(s: State, a: Action)
    requires Invariant(s)
    ensures Invariant(Step(s, a))
  {
    StepKeepsShown(s, a);
    StepKeepsSane(s, a);
    StepKeepsForgets(s, a);
  }

  lemma {:induction false} RunsAreSane(actions: seq<Action>)
    ensures Invariant(Run(actions))
  {
    if actions != [] {
      RunsAreSane(actions[..|actions| - 1]);
      StepKeepsInvariant(Run(actions[..|actions| - 1]), actions[|actions| - 1]);
    }
  }

  /** In every interleaving of events, late polls, timeouts and lock releases, the job shown
      is never one that is remembered as completed. */
  lemma {:induction false} CompletedJobNotShown(actions: seq<Action>)
    ensures ShownIsLive(Run(actions))
  {
    RunsAreSane(actions);
  }

  /** A job stays remembered, and so is not shown whatever polls and events come in, exactly
      as long as no 30-second timeout of any of its completions has come due since its last
      completion; only a timeout that is due at this very instant leaves it open. */
  lemma {:induction false} RememberedExactlyWhileFresh(actions: seq<Action>, id: string)
    ensures var s := Run(actions);
      && ((exists i: nat :: Fresh(s.log, s.now, i) && s.log[i].jobId == id) ==>
            id in s.completedJobs && (s.progress.Some? ==> s.progress.value.jobId != id))
      && (id in s.completedJobs ==> exists i: nat :: NearlyFresh(s.log, s.now, i) && s.log[i].jobId == id)
  {
    RunsAreSane(actions);
    if id in Run(actions).completedJobs {
      RememberedIsNearlyFresh(Run(actions), id);
    }
  }

  lemma RememberedIsNearlyFresh(s: State, id: string)
    requires ExpiriesSane(s) && Forgets(s) && id in s.completedJobs
    ensures exists i: nat :: NearlyFresh(s.log, s.now, i) && s.log[i].jobId == id
  {
    var i: nat :| Outlives(s, id, i);
    forall k | 0 <= k < |s.log| && s.log[k].jobId == id
      ensures s.log[k].time + MEMORY <= s.log[i].time || s.now <= s.log[k].time + MEMORY
    {
      if !Fired(s, k) {
        assert Expiry(id, s.log[k].time + MEMORY, k) in s.pending;
      }
    }
    assert NearlyFresh(s.log, s.now, i);
  }

  /** Completion `i` is under 30 seconds old, and no other one of its job came in the 30 seconds
      before it. */
  ghost predicate Recent(log: seq<Completion>, now: int, i: nat) {
    && i < |log| && now < log[i].time + 30000
    && forall k :: 0 <= k < i && log[k].jobId == log[i].jobId ==> log[k].time + 30000 < log[i].time
  }

  /** In particular a job completed once is hidden for 30 seconds. */
  lemma {:induction false} HiddenFor30Seconds(actions: seq<Action>, i: nat)
    requires Recent(Run(actions).log, Run(actions).now, i)
    ensures var s := Run(actions);
      s.log[i].jobId in s.completedJobs && (s.progress.Some? ==> s.progress.value.jobId != s.log[i].jobId)
  {
    RunsAreSane(actions);
    RecentIsHidden(Run(actions), i);
  }

  lemma RecentIsHidden(s: State, i: nat)
    requires Invariant(s) && Recent(s.log, s.now, i)
    ensures s.log[i].jobId in s.completedJobs && (s.progress.Some? ==> s.progress.value.jobId != s.log[i].jobId)
  {
    assert Fresh(s.log, s.now, i);
  }

  /** A repeated completion does not extend the time: of two completions 20 seconds apart, the first one's timeout
      forgets the job, and a stale poll shows it 10 seconds after it completed again. */
  function RepeatedCompletion(job: Job): seq<Action> {
    [CompletedEvent(job.jobId, true), Tick(20000), CompletedEvent(job.jobId, true), Tick(10000),
     Forget(Expiry(job.jobId, 30000, 0)), PollAnswer(ActiveJob(job))]
  }

  /** What is remembered of a job completed at the times given, the first timeout being due. */
  ghost predicate CompletedTwice(s: State, id: string) {
    && s.now == 30000 && s.log == [Completion(id, 0), Completion(id, 20000)] && s.completedJobs == {id}
    && s.pending == {Expiry(id, 30000, 0), Expiry(id, 50000, 1)}
  }

  lemma {:induction false} RepeatedCompletionForgetsEarly(job: Job)
    requires job.jobId != ""
    ensures var s := Run(RepeatedCompletion(job));
      && s.progress == Some(job) && s.now == 30000
      && s.log == [Completion(job.jobId, 0), Completion(job.jobId, 20000)]
  {
    var es := RepeatedCompletion(job);
    assert es[..6] == es && es[..6][..5] == es[..5] && es[..5][..4] == es[..4];
    CompletesTwice(job);
    assert Run(es) == Step(Step(Run(es[..4]), es[4]), es[5]);
  }

  lemma {:induction false} CompletesTwice(job: Job)
    requires job.jobId != ""
    ensures CompletedTwice(Run(RepeatedCompletion(job)[..4]), job.jobId)
  {
    var es, id := RepeatedCompletion(job), job.jobId;
    assert es[..4][..3] == es[..3] && es[..3][..2] == es[..2] && es[..2][..1] == es[..1] && es[..1][..0] == [];
    assert Run(es[..1]) == State(None, None, false, {id}, 0, {Expiry(id, 30000, 0)}, [Completion(id, 0)]);
    assert Run(es[..2]) == State(None, None, false, {id}, 20000, {Expiry(id, 30000, 0)}, [Completion(id, 0)]);
    assert Run(es[..3]).pending == {Expiry(id, 30000, 0), Expiry(id, 50000, 1)};
  }

  predicate Clears(a: Action) {
    || (a.CompletedEvent? && a.matches) || (a.FailedEvent? && a.matches) || (a.LockReleased? && a.success)
  }

  /** If something is shown at one point of a run and nothing at a later one, then in between
      came a completed or failed event of the scope, or a lock release that succeeded: polls
      and timeouts, however many, never clear it. */
  lemma {:induction false} ClearedOnlyBy(actions: seq<Action>, m: nat, n: nat)
    requires m <= n <= |actions|
    requires Run(actions[..m]).progress.Some? && Run(actions[..n]).progress.None?
    ensures exists k :: m <= k < n && Clears(actions[k])
  {
    var s, a := Run(actions[..n - 1]), actions[n - 1];
    assert actions[..n][..n - 1] == actions[..n - 1];
    if s.progress.None? {
      ClearedOnlyBy(actions, m, n - 1);
    } else {
      assert Run(actions[..n]) == Step(s, a) && Clears(a);
    }
  }

  // ----- what is shown is the last word -----

  /** The job that action `i` brings, if it is an event of the scope or a poll answer. */
  function Brings(a: Action): Option<Job> {
    match a
    case ProgressEvent(job, matches) => if matches then Some(job) else None
    case PollAnswer(ActiveJob(job)) => Some(job)
    case _ => None
  }

  /** Action `i` of the run brings a job that is not remembered as completed. */
  ghost predicate BringsLive(actions: seq<Action>, i: nat) {
    && i < |actions| && Brings(actions[i]).Some?
    && Brings(actions[i]).value.jobId !in Run(actions[..i]).completedJobs
  }

  /** No later action clears the display or brings another live job. */
  ghost predicate LastWord(actions: seq<Action>, i: nat) {
    forall k :: i < k < |actions| ==> !Clears(actions[k]) && !BringsLive(actions, k)
  }

  ghost predicate ShownBy(actions: seq<Action>, job: Job) {
    exists i: nat :: BringsLive(actions, i) && Brings(actions[i]) == Some(job) && LastWord(actions, i)
  }

  lemma StepShows(s: State, a: Action, job: Job)
    ensures Step(s, a).progress == Some(job) <==>
      if Brings(a).Some? && Brings(a).value.jobId !in s.completedJobs then job == Brings(a).value
      else !Clears(a) && s.progress == Some(job)
  {
  }

  lemma FrontBringsLive(actions: seq<Action>, a: Action, i: nat)
    requires i < |actions|
    ensures BringsLive(actions + [a], i) <==> BringsLive(actions, i)
  {
    assert (actions + [a])[..i] == actions[..i];
  }

  lemma ShownOneMore(actions: seq<Action>, a: Action, job: Job)
    ensures ShownBy(actions + [a], job) <==>
      if BringsLive(actions + [a], |actions|) then Brings(a) == Some(job)
      else !Clears(a) && ShownBy(actions, job)
  {
    var more := actions + [a];
    forall i | 0 <= i < |actions| ensures BringsLive(more, i) <==> BringsLive(actions, i) {
      FrontBringsLive(actions, a, i);
    }
    if BringsLive(more, |actions|) {
      assert LastWord(more, |actions|);
    } else {
      if i: nat :| BringsLive(more, i) && Brings(more[i]) == Some(job) && LastWord(more, i) {
        assert LastWord(actions, i) by {
          forall k | i < k < |actions| ensures !Clears(actions[k]) && !BringsLive(actions, k) {
            assert more[k] == actions[k];
          }
        }
        assert more[|actions|] == a;
      }
      if !Clears(a) && ShownBy(actions, job) {
        var i: nat :| BringsLive(actions, i) && Brings(actions[i]) == Some(job) && LastWord(actions, i);
        assert LastWord(more, i);
        assert more[i] == actions[i];
      }
    }
  }

  /** In every run a job is shown if and only if an event of the scope or a poll answer brought it
      while it was not remembered as completed, and since then nothing cleared the display and
      no other such job was brought. */
  lemma {:induction false} ShownIsLastWord(actions: seq<Action>, job: Job)
    ensures Run(actions).progress == Some(job) <==> ShownBy(actions, job)
  {
    if actions != [] {
      var front, a := actions[..|actions| - 1], actions[|actions| - 1];
      ShownIsLastWord(front, job);
      ShownOneMore(front, a, job);
      StepShows(Run(front), a, job);
      assert actions == front + [a];
      assert actions[..|front|] == front;
    }
  }

  /** In every run each completed event of the scope that names its job is logged with its time and
      the job is remembered at once; nothing else is logged. */
  lemma CompletionsAreLogged(actions: seq<Action>, a: Action)
    ensures var s, t := Run(actions), Step(Run(actions), a);
      if a.CompletedEvent? && a.matches && a.jobId != ""
      then t.log == s.log + [Completion(a.jobId, s.now)] && a.jobId in t.completedJobs
      else t.log == s.log
  {
  }

  // ----- the stuck flag -----

  ghost predicate StuckSince(actions: seq<Action>, i: nat) {
    && i < |actions| && actions[i] == StuckEvent(true)
    && forall k :: i < k < |actions| ==> actions[k] != LockReleased(true)
  }

  lemma StuckOneMore(actions: seq<Action>, a: Action)
    ensures (exists i: nat :: StuckSince(actions + [a], i)) <==>
      a == StuckEvent(true) || (a != LockReleased(true) && exists i: nat :: StuckSince(actions, i))
  {
    var more := actions + [a];
    if a == StuckEvent(true) {
      assert StuckSince(more, |actions|);
    } else {
      if i: nat :| StuckSince(more, i) {
        assert more[i] == actions[i] && more[|actions|] == a;
        assert forall k :: i < k < |actions| ==> actions[k] == more[k];
        assert StuckSince(actions, i);
      }
      if i: nat :| StuckSince(actions, i) && a != LockReleased(true) {
        assert StuckSince(more, i);
      }
    }
  }

  /** The job counts as stuck if and only if a stuck event of the scope came after every lock
      release that succeeded. */
  lemma {:induction false} StuckIff(actions: seq<Action>)
    ensures Run(actions).isStuck <==> exists i: nat :: StuckSince(actions, i)
  {
    if actions != [] {
      var front, a := actions[..|actions| - 1], actions[|actions| - 1];
      StuckIff(front);
      StuckOneMore(front, a);
      assert actions == front + [a];
    }
  }

  /** The error message that each event leaves: a failure's own, the fixed one when stuck, none
      once a job is brought, completed or released. */
  lemma ErrorAfter(s: State, a: Action)
    ensures var error := Step(s, a).error;
      && (a.FailedEvent? && a.matches ==> error == Some(a.error))
      && (a == StuckEvent(true) ==> error == Some("Job appears to be stuck and may need manual intervention"))
      && ((a.CompletedEvent? && a.matches) || a == LockReleased(true) || a == PollAnswer(NotFound) ==> error == None)
      && (Brings(a).Some? && Brings(a).value.jobId !in s.completedJobs ==> error == None)
  {
  }
}
