/** The coordination protocol of the MAST graph manager: one process runs as
    an actor, an evaluator or a trainer, and the three talk only through the
    shared data store. The manager keeps the version of the latest policy it
    knows of, the environment step at which it last published, and its step
    counters. */
module MastGraph {
  import opened Episodes
  import opened Collaborators

  datatype RunPhase = Heatup | Train | Test | Undefined

  /** An actor tries to refresh its policy when its environment-step count is
      a multiple of this. */
  const PolicyCheckInterval: nat := 200

  /** Environment steps consumed by the acting calls numbered `first` up to
      (not including) `last`, when call k consumes `1 + extra(k)` steps. */
  function StepsTaken(extra: nat -> nat, first: nat, last: nat): (n: nat)
    requires first <= last
    ensures n >= last - first
    decreases last - first
  {
    if first == last then 0 else StepsTaken(extra, first, last - 1) + 1 + extra(last - 1)
  }

  /** The environment-step counts at which the acting calls numbered `first`
      up to (not including) `last` start, when the first of them starts at
      `start`. */
  function ActStarts(extra: nat -> nat, start: nat, first: nat, last: nat): (r: seq<nat>)
    requires first <= last
    ensures |r| == last - first
    decreases last - first
  {
    if first == last then [] else ActStarts(extra, start, first, last - 1) + [start + StepsTaken(extra, first, last - 1)]
  }

  /** The i-th acting call starts after the steps of the calls before it. */
  lemma {:induction false} ActStartsAt(extra: nat -> nat, start: nat, first: nat, last: nat, i: nat)
    requires first <= last && i < last - first
    ensures ActStarts(extra, start, first, last)[i] == start + StepsTaken(extra, first, first + i)
    decreases last - first
  {
    if i < last - first - 1 {
      ActStartsAt(extra, start, first, last - 1, i);
    }
  }

  /** The step counts of `starts` at which an actor tries to refresh its
      policy: those that are multiples of `PolicyCheckInterval`, in order. */
  function Checkpoints(starts: seq<nat>): seq<nat>
    decreases |starts|
  {
    if starts == [] then []
    else
      var last := starts[|starts| - 1];
      Checkpoints(starts[..|starts| - 1]) + (if last % PolicyCheckInterval == 0 then [last] else [])
  }

  lemma CheckpointsSnoc(starts: seq<nat>, x: nat)
    ensures Checkpoints(starts + [x]) == Checkpoints(starts) + (if x % PolicyCheckInterval == 0 then [x] else [])
  {
    assert (starts + [x])[..|starts|] == starts;
  }

  /** A step count is a refresh point exactly when it is the start of an
      acting call and a multiple of `PolicyCheckInterval`. */
  lemma {:induction false} CheckpointsMember(starts: seq<nat>, x: nat)
    ensures x in Checkpoints(starts) <==> x in starts && x % PolicyCheckInterval == 0
    decreases |starts|
  {
    if starts != [] {
      var init, last := starts[..|starts| - 1], starts[|starts| - 1];
      CheckpointsMember(init, x);
      assert starts == init + [last];
    }
  }

  /** Acting calls start in increasing order: none starts after the last. */
  lemma {:induction false} ActStartsBounded(extra: nat -> nat, start: nat, first: nat, last: nat)
    requires first < last
    ensures forall x :: x in ActStarts(extra, start, first, last) ==> x <= start + StepsTaken(extra, first, last - 1)
    decreases last - first
  {
    if first < last - 1 {
      ActStartsBounded(extra, start, first, last - 1);
    }
  }

  /** Every refresh attempt made while acting falls on a multiple of the
      interval, before the last acting call's start. */
  lemma CheckpointsBelow(extra: nat -> nat, start: nat, first: nat, last: nat, bound: int)
    requires first <= last
    requires first < last ==> start + StepsTaken(extra, first, last - 1) < bound
    ensures forall x :: x in Checkpoints(ActStarts(extra, start, first, last)) ==> x % PolicyCheckInterval == 0 && x < bound
  {
    if first < last {
      ActStartsBounded(extra, start, first, last);
    }
    forall x | x in Checkpoints(ActStarts(extra, start, first, last))
      ensures x % PolicyCheckInterval == 0 && x < bound
    {
      CheckpointsMember(ActStarts(extra, start, first, last), x);
    }
  }

  /** The fields an acting loop changes, across the graph manager, its agent
      and the store, as values: the environment-step count, the number of
      acting calls, end-of-run polls and load attempts so far, the loads
      granted, the latest known and the agent's policy version, and the logs
      of phases and load-attempt step counts. */
  datatype Acting = Acting(env: nat, acts: nat, polls: nat, loadCalls: nat, granted: nat,
                           latest: int, policy: int, phases: seq<RunPhase>, attempts: seq<nat>,
                           afterEpisode: seq<RunPhase>)

  /** What every acting loop keeps between its start `s0` and its state `s`:
      each act consumed its steps and followed a poll that did not signal the
      end, the last act started below `countEnd`, and the policy version went
      up by one per granted load, the agent holding the newest one. */
  ghost predicate Acted(s0: Acting, s: Acting, extra: nat -> nat, signal: nat -> bool, countEnd: int)
  {
    s.acts >= s0.acts && s.granted >= s0.granted
    && s.env == s0.env + StepsTaken(extra, s0.acts, s.acts)
    && s.polls == s0.polls + (s.acts - s0.acts)
    && (forall k :: s0.polls <= k < s.polls ==> !signal(k))
    && (s.acts > s0.acts ==> s0.env + StepsTaken(extra, s0.acts, s.acts - 1) < countEnd)
    && |s.phases| == |s0.phases| + (s.acts - s0.acts)
    && s.latest == s0.latest + (s.granted - s0.granted)
    && (s.latest == s0.latest ==> s.policy == s0.policy)
    && (s.latest != s0.latest ==> s.policy == s.latest)
  }

  /** One pass of an acting loop that acted: the poll did not signal the end,
      one acting call consumed its steps, and a granted load raised the
      policy version by one and handed it to the agent. */
  ghost predicate Pass(s: Acting, s': Acting, extra: nat -> nat, signal: nat -> bool)
  {
    !signal(s.polls) && s'.polls == s.polls + 1
    && s'.acts == s.acts + 1 && s'.env == s.env + 1 + extra(s.acts)
    && |s'.phases| == |s.phases| + 1
    && s'.granted >= s.granted && s'.latest == s.latest + (s'.granted - s.granted)
    && (s'.latest == s.latest ==> s'.policy == s.policy)
    && (s'.latest != s.latest ==> s'.policy == s'.latest)
  }

  lemma ActedStep(s0: Acting, s: Acting, s': Acting, extra: nat -> nat, signal: nat -> bool, countEnd: int)
    requires Acted(s0, s, extra, signal, countEnd) && s.env < countEnd && Pass(s, s', extra, signal)
    ensures Acted(s0, s', extra, signal, countEnd)
  {
  }

  /** The actor's loop so far: every act ran in `phase`, and a refresh was
      tried at exactly the act starts that are multiples of the interval. */
  ghost predicate ActorRan(s0: Acting, s: Acting, extra: nat -> nat, signal: nat -> bool, phase: RunPhase, countEnd: int)
  {
    Acted(s0, s, extra, signal, countEnd)
    && s.phases[..|s0.phases|] == s0.phases
    && (forall i :: |s0.phases| <= i < |s.phases| ==> s.phases[i] == phase)
    && s.attempts == s0.attempts + Checkpoints(ActStarts(extra, s0.env, s0.acts, s.acts))
    && s.loadCalls == s0.loadCalls + (|s.attempts| - |s0.attempts|)
  }

  /** Appending to a log keeps the entries it started with. */
  lemma SnocKeepsPrefix<T>(s0: seq<T>, s: seq<T>, x: T)
    requires |s0| <= |s| && s[..|s0|] == s0
    ensures (s + [x])[..|s0|] == s0
  {
    assert (s + [x])[..|s0|] == s[..|s0|];
  }

  /** One more pass of the actor's loop keeps `ActorRan`. */
  lemma ActorRanStep(s0: Acting, s: Acting, s': Acting, extra: nat -> nat, signal: nat -> bool, phase: RunPhase, countEnd: int)
    requires ActorRan(s0, s, extra, signal, phase, countEnd) && s.env < countEnd && Pass(s, s', extra, signal)
    requires s'.phases == s.phases + [phase]
    requires s'.attempts == s.attempts + (if s.env % PolicyCheckInterval == 0 then [s.env] else [])
    requires s'.loadCalls == s.loadCalls + (|s'.attempts| - |s.attempts|)
    ensures ActorRan(s0, s', extra, signal, phase, countEnd)
  {
    ActedStep(s0, s, s', extra, signal, countEnd);
    SnocKeepsPrefix(s0.phases, s.phases, phase);
    var before := ActStarts(extra, s0.env, s0.acts, s.acts);
    assert ActStarts(extra, s0.env, s0.acts, s'.acts) == before + [s.env];
    CheckpointsSnoc(before, s.env);
  }

  /** The actor's loop has ended in `f`: either its budget is used up, or,
      with budget left, the poll after its last act signalled the end of the
      run. */
  ghost predicate ActorEnded(s0: Acting, f: Acting, extra: nat -> nat, signal: nat -> bool, phase: RunPhase, countEnd: int)
  {
    (ActorRan(s0, f, extra, signal, phase, countEnd) && f.env >= countEnd)
    || (f.env < countEnd && f.polls > 0 && signal(f.polls - 1) && ActorRan(s0, f.(polls := f.polls - 1), extra, signal, phase, countEnd))
  }

  /** What the actor has done once its loop has ended. */
  lemma ActorEndedFacts(s0: Acting, f: Acting, extra: nat -> nat, signal: nat -> bool, phase: RunPhase, countEnd: int)
    requires ActorEnded(s0, f, extra, signal, phase, countEnd)
    ensures f.acts >= s0.acts
    ensures f.env == s0.env + StepsTaken(extra, s0.acts, f.acts)
    ensures forall k :: s0.polls <= k < s0.polls + (f.acts - s0.acts) ==> !signal(k)
    ensures f.polls == s0.polls + (f.acts - s0.acts)
            || (f.polls == s0.polls + (f.acts - s0.acts) + 1 && signal(f.polls - 1))
    ensures f.env >= countEnd || (f.env < countEnd && f.polls > s0.polls && signal(f.polls - 1))
    ensures f.acts > s0.acts ==> s0.env + StepsTaken(extra, s0.acts, f.acts - 1) < countEnd
    ensures |f.phases| == |s0.phases| + (f.acts - s0.acts) && f.phases[..|s0.phases|] == s0.phases
    ensures forall i :: |s0.phases| <= i < |f.phases| ==> f.phases[i] == phase
    ensures f.attempts == s0.attempts + Checkpoints(ActStarts(extra, s0.env, s0.acts, f.acts))
    ensures |f.attempts| >= |s0.attempts|
    ensures f.loadCalls == s0.loadCalls + (|f.attempts| - |s0.attempts|)
    ensures forall i :: |s0.attempts| <= i < |f.attempts| ==>
              f.attempts[i] % PolicyCheckInterval == 0 && f.attempts[i] < countEnd
    ensures f.granted >= s0.granted
    ensures f.latest == s0.latest + (f.granted - s0.granted)
    ensures f.latest == s0.latest ==> f.policy == s0.policy
    ensures f.latest != s0.latest ==> f.policy == f.latest
  {
    var s := if ActorRan(s0, f, extra, signal, phase, countEnd) && f.env >= countEnd then f else f.(polls := f.polls - 1);
    assert ActorRan(s0, s, extra, signal, phase, countEnd);
    CheckpointsBelow(extra, s0.env, s0.acts, f.acts, countEnd);
    assert forall i :: |s0.attempts| <= i < |f.attempts| ==>
             f.attempts[i] in Checkpoints(ActStarts(extra, s0.env, s0.acts, f.acts));
  }

  /** The evaluator's loop so far: every episode ran in the test phase and
      left `afterPhase` behind, and one load was tried at the start of each. */
  ghost predicate EvaluatorRan(s0: Acting, s: Acting, extra: nat -> nat, signal: nat -> bool, afterPhase: RunPhase, countEnd: int)
  {
    Acted(s0, s, extra, signal, countEnd)
    && s.phases[..|s0.phases|] == s0.phases
    && (forall i :: |s0.phases| <= i < |s.phases| ==> s.phases[i] == RunPhase.Test)
    && |s.afterEpisode| == |s0.afterEpisode| + (s.acts - s0.acts)
    && s.afterEpisode[..|s0.afterEpisode|] == s0.afterEpisode
    && (forall i :: |s0.afterEpisode| <= i < |s.afterEpisode| ==> s.afterEpisode[i] == afterPhase)
    && s.attempts == s0.attempts + ActStarts(extra, s0.env, s0.acts, s.acts)
    && s.loadCalls == s0.loadCalls + (s.acts - s0.acts)
  }

  /** The evaluator's loop has ended in `f`: either its budget is used up,
      or, with budget left, the poll after its last episode signalled the end
      of the run. */
  ghost predicate EvaluatorEnded(s0: Acting, f: Acting, extra: nat -> nat, signal: nat -> bool, afterPhase: RunPhase, countEnd: int)
  {
    (EvaluatorRan(s0, f, extra, signal, afterPhase, countEnd) && f.env >= countEnd)
    || (f.env < countEnd && f.polls > 0 && signal(f.polls - 1) && EvaluatorRan(s0, f.(polls := f.polls - 1), extra, signal, afterPhase, countEnd))
  }

  /** What the evaluator has done once its loop has ended. */
  lemma EvaluatorEndedFacts(s0: Acting, f: Acting, extra: nat -> nat, signal: nat -> bool, afterPhase: RunPhase, countEnd: int)
    requires EvaluatorEnded(s0, f, extra, signal, afterPhase, countEnd)
    ensures f.acts >= s0.acts
    ensures f.env == s0.env + StepsTaken(extra, s0.acts, f.acts)
    ensures forall k :: s0.polls <= k < s0.polls + (f.acts - s0.acts) ==> !signal(k)
    ensures f.polls == s0.polls + (f.acts - s0.acts)
            || (f.polls == s0.polls + (f.acts - s0.acts) + 1 && signal(f.polls - 1))
    ensures f.env >= countEnd || (f.env < countEnd && f.polls > s0.polls && signal(f.polls - 1))
    ensures f.acts > s0.acts ==> s0.env + StepsTaken(extra, s0.acts, f.acts - 1) < countEnd
    ensures f.loadCalls == s0.loadCalls + (f.acts - s0.acts)
    ensures f.attempts == s0.attempts + ActStarts(extra, s0.env, s0.acts, f.acts)
    ensures f.granted >= s0.granted
    ensures f.latest == s0.latest + (f.granted - s0.granted)
    ensures f.latest == s0.latest ==> f.policy == s0.policy
    ensures f.latest != s0.latest ==> f.policy == f.latest
    ensures |f.phases| == |s0.phases| + (f.acts - s0.acts) && f.phases[..|s0.phases|] == s0.phases
    ensures forall i :: |s0.phases| <= i < |f.phases| ==> f.phases[i] == RunPhase.Test
    ensures |f.afterEpisode| == |s0.afterEpisode| + (f.acts - s0.acts) && f.afterEpisode[..|s0.afterEpisode|] == s0.afterEpisode
    ensures forall i :: |s0.afterEpisode| <= i < |f.afterEpisode| ==> f.afterEpisode[i] == afterPhase
  {
    var s := if EvaluatorRan(s0, f, extra, signal, afterPhase, countEnd) && f.env >= countEnd then f else f.(polls := f.polls - 1);
    assert EvaluatorRan(s0, s, extra, signal, afterPhase, countEnd);
  }

  /** One more episode keeps `EvaluatorRan`. */
  lemma EvaluatorRanStep(s0: Acting, s: Acting, s': Acting, extra: nat -> nat, signal: nat -> bool, afterPhase: RunPhase, countEnd: int)
    requires EvaluatorRan(s0, s, extra, signal, afterPhase, countEnd) && s.env < countEnd && Pass(s, s', extra, signal)
    requires s'.phases == s.phases + [RunPhase.Test] && s'.afterEpisode == s.afterEpisode + [afterPhase]
    requires s'.attempts == s.attempts + [s.env] && s'.loadCalls == s.loadCalls + 1
    ensures EvaluatorRan(s0, s', extra, signal, afterPhase, countEnd)
  {
    ActedStep(s0, s, s', extra, signal, countEnd);
    SnocKeepsPrefix(s0.phases, s.phases, RunPhase.Test);
    SnocKeepsPrefix(s0.afterEpisode, s.afterEpisode, afterPhase);
    assert ActStarts(extra, s0.env, s0.acts, s'.acts) == ActStarts(extra, s0.env, s0.acts, s.acts) + [s.env];
  }

  /** The consecutive policy versions `lo`, `lo + 1`, ..., `hi - 1`. */
  function IdRange(lo: int, hi: int): (r: seq<int>)
    ensures |r| == if lo <= hi then hi - lo else 0
    ensures forall i :: 0 <= i < |r| ==> r[i] == lo + i
    decreases hi - lo
  {
    if hi <= lo then [] else IdRange(lo, hi - 1) + [hi - 1]
  }

  /** The agent's bookkeeping touched by the fetch loop: its replay memory,
      its total-steps counter, its episode counter, whether its current
      episode buffer is complete, and the manager's environment-step count. */
  datatype Books = Books(memory: seq<Episode>, totalSteps: nat, currentEpisode: nat,
                         bufferComplete: bool, envSteps: nat)

  /** The bookkeeping after one accepted episode. */
  function Accept(b: Books, e: Episode): Books
  {
    Books(b.memory + [e], b.totalSteps + e.length, b.currentEpisode + 1, true, b.totalSteps + e.length)
  }

  /** The bookkeeping after accepting the episodes of `s` in order. */
  function AcceptAll(b: Books, s: seq<Episode>): Books
    decreases |s|
  {
    if s == [] then b else Accept(AcceptAll(b, s[..|s| - 1]), s[|s| - 1])
  }

  lemma AcceptAllAppend(b: Books, s: seq<Episode>, e: Episode)
    ensures AcceptAll(b, s + [e]) == Accept(AcceptAll(b, s), e)
  {
    assert (s + [e])[..|s|] == s;
  }

  /** Each accepted episode is stored exactly once, in order, adds exactly its
      length to the total-steps counter and one to the episode counter; after
      any accepted episode the environment-step count equals the total-steps
      counter and the episode buffer is complete. Accepting nothing changes
      nothing. */
  lemma {:induction false} AcceptAllBookkeeping(b: Books, s: seq<Episode>)
    ensures AcceptAll(b, s).memory == b.memory + s
    ensures AcceptAll(b, s).totalSteps == b.totalSteps + TotalLength(s)
    ensures AcceptAll(b, s).currentEpisode == b.currentEpisode + |s|
    ensures s == [] ==> AcceptAll(b, s) == b
    ensures s != [] ==> AcceptAll(b, s).bufferComplete && AcceptAll(b, s).envSteps == AcceptAll(b, s).totalSteps
    decreases |s|
  {
    if s != [] {
      var init, last := s[..|s| - 1], s[|s| - 1];
      AcceptAllBookkeeping(b, init);
      assert s == init + [last];
      TotalLengthAppend(init, [last]);
      assert TotalLength([last]) == last.length + TotalLength([]);
    }
  }

  /** The policy versions of `stored` lie between `lo` and `hi` and never
      decrease along it. */
  ghost predicate StoredInOrder(stored: seq<Episode>, lo: int, hi: int)
  {
    && (forall i :: 0 <= i < |stored| ==> lo <= stored[i].policyId <= hi)
    && (forall i, j :: 0 <= i < j < |stored| ==> stored[i].policyId <= stored[j].policyId)
  }

  /** Storing episodes of the newest version keeps the memory in order. */
  lemma StoredInOrderExtend(stored: seq<Episode>, accepted: seq<Episode>, lo: int, hi: int)
    requires StoredInOrder(stored, lo, hi) && lo <= hi
    requires forall i :: 0 <= i < |accepted| ==> accepted[i].policyId == hi
    ensures StoredInOrder(stored + accepted, lo, hi)
  {
  }

  lemma StoredInOrderRaise(stored: seq<Episode>, lo: int, hi: int, hi': int)
    requires StoredInOrder(stored, lo, hi) && hi <= hi'
    ensures StoredInOrder(stored, lo, hi')
  {
  }

  lemma IdRangeSnoc(lo: int, hi: int)
    requires lo <= hi
    ensures IdRange(lo, hi + 1) == IdRange(lo, hi) + [hi]
  {
  }

  /** One round of the trainer keeps the stored episodes in order and the
      published versions consecutive: the round stores episodes of the
      version `mid` it started with, and publishes at most `mid + 1`. */
  lemma RoundKeepsOrder(stored: seq<Episode>, accepted: seq<Episode>, lo: int, mid: int, hi: int,
                        published0: seq<int>, published: seq<int>, published': seq<int>)
    requires StoredInOrder(stored, lo, mid) && lo <= mid
    requires forall i :: 0 <= i < |accepted| ==> accepted[i].policyId == mid
    requires published == published0 + IdRange(lo + 1, mid + 1)
    requires hi == mid ==> published' == published
    requires hi != mid ==> hi == mid + 1 && published' == published + [hi]
    ensures StoredInOrder(stored + accepted, lo, hi)
    ensures published' == published0 + IdRange(lo + 1, hi + 1)
  {
    StoredInOrderExtend(stored, accepted, lo, mid);
    if hi != mid {
      IdRangeSnoc(lo + 1, mid + 1);
      StoredInOrderRaise(stored + accepted, lo, mid, hi);
    }
  }

  /** `k` rounds of at least `n` steps each: `k * n`, counted one round at a
      time. */
  function Rounds(k: nat, n: int): int
  {
    if k == 0 then 0 else Rounds(k - 1, n) + n
  }

  lemma RoundsSnoc(k: nat, n: int)
    ensures Rounds(k + 1, n) == Rounds(k, n) + n
  {
  }

  lemma {:induction false} RoundsProduct(k: nat, n: int)
    ensures Rounds(k, n) == k * n
  {
    if k > 0 {
      RoundsProduct(k - 1, n);
      assert k * n == (k - 1) * n + n;
    }
  }

  /** One round of the trainer: how many episodes its fetch took from the
      stream, which of them it accepted, the environment-step count after the
      fetch, whether the subscription ran dry (the round then neither trains
      nor publishes), and whether it published. */
  datatype Round = Round(consumed: nat, accepted: seq<Episode>, envSteps: nat, blocked: bool, published: bool)

  /** The episodes the rounds of `log` stored, in order. */
  function StoredBy(log: seq<Round>): seq<Episode>
    decreases |log|
  {
    if log == [] then [] else StoredBy(log[..|log| - 1]) + log[|log| - 1].accepted
  }

  /** How many episodes of the stream the rounds of `log` took. */
  function Consumed(log: seq<Round>): nat
    decreases |log|
  {
    if log == [] then 0 else Consumed(log[..|log| - 1]) + log[|log| - 1].consumed
  }

  /** The environment-step count after the rounds of `log`, from `env0`. */
  function EnvAfter(log: seq<Round>, env0: nat): nat
  {
    if log == [] then env0 else log[|log| - 1].envSteps
  }

  /** The environment-step count of the last publication after the rounds
      of `log`, from `w0`. */
  function Watermark(log: seq<Round>, w0: int): int
    decreases |log|
  {
    if log == [] then w0
    else if log[|log| - 1].published then log[|log| - 1].envSteps
    else Watermark(log[..|log| - 1], w0)
  }

  /** How many rounds of `log` published a new policy version. */
  function PublishCount(log: seq<Round>): nat
    decreases |log|
  {
    if log == [] then 0 else PublishCount(log[..|log| - 1]) + (if log[|log| - 1].published then 1 else 0)
  }

  /** The state the trainer's rounds read and write: the agent's replay
      memory, total-steps counter, episode counter and episode-buffer flag,
      and the manager's environment-step count, training-step count, policy
      version and publish watermark, with the store's subscription cursor
      and the versions published to it. */
  datatype Training = Training(memory: seq<Episode>, total: nat, episode: nat, complete: bool, env: nat,
                               trained: nat, latest: int, watermark: int, cursor: nat, published: seq<int>)

  /** Round `r` follows the rounds `prev` of a trainer that started in `t0`
      and reads the stream `episodes`: its fetch is the one `Fetch` describes
      over the episodes the rounds before it left unread, for the version
      their publications left current; the environment-step count moved to
      the total-steps counter if an episode was accepted and stayed put
      otherwise; a round that ran dry did not publish, and one that trained
      published exactly when at least `threshold` steps were fetched since
      the watermark. */
  ghost predicate RoundOk(prev: seq<Round>, r: Round, episodes: seq<Episode>, t0: Training, target: int, threshold: int)
  {
    var start := t0.cursor + Consumed(prev);
    var fetched := t0.total + TotalLength(StoredBy(prev)) + TotalLength(r.accepted);
    && start <= |episodes|
    && Fetch(episodes[start..], t0.latest + PublishCount(prev), target) == FetchResult(r.consumed, r.accepted, r.blocked)
    && (r.blocked ==> !r.published)
    && r.envSteps == (if r.accepted == [] then EnvAfter(prev, t0.env) else fetched)
    && (!r.blocked ==> (r.published <==> fetched - Watermark(prev, t0.watermark) >= threshold))
  }

  /** Every round of `log` follows the ones before it. */
  ghost predicate TrainerLog(log: seq<Round>, episodes: seq<Episode>, t0: Training, target: int, threshold: int)
    decreases |log|
  {
    log == []
    || (TrainerLog(log[..|log| - 1], episodes, t0, target, threshold)
        && RoundOk(log[..|log| - 1], log[|log| - 1], episodes, t0, target, threshold))
  }

  /** Appending a round that follows the log extends the log, the stored
      episodes, the consumed count, the watermark and the publication count
      by that round. */
  lemma TrainerLogSnoc(log: seq<Round>, r: Round, episodes: seq<Episode>, t0: Training, target: int, threshold: int)
    requires TrainerLog(log, episodes, t0, target, threshold)
    requires RoundOk(log, r, episodes, t0, target, threshold)
    ensures TrainerLog(log + [r], episodes, t0, target, threshold)
    ensures StoredBy(log + [r]) == StoredBy(log) + r.accepted
    ensures Consumed(log + [r]) == Consumed(log) + r.consumed
    ensures EnvAfter(log + [r], t0.env) == r.envSteps
    ensures Watermark(log + [r], t0.watermark) == if r.published then r.envSteps else Watermark(log, t0.watermark)
    ensures PublishCount(log + [r]) == PublishCount(log) + (if r.published then 1 else 0)
  {
    assert (log + [r])[..|log|] == log;
  }

  /** In a log that follows the rules, round `i` follows the rounds before
      it. */
  lemma {:induction false} TrainerLogRound(log: seq<Round>, i: nat, episodes: seq<Episode>, t0: Training,
                                           target: int, threshold: int)
    requires TrainerLog(log, episodes, t0, target, threshold) && i < |log|
    ensures RoundOk(log[..i], log[i], episodes, t0, target, threshold)
    decreases |log|
  {
    var n := |log| - 1;
    if i < n {
      var init := log[..n];
      TrainerLogRound(init, i, episodes, t0, target, threshold);
      assert init[..i] == log[..i] && init[i] == log[i];
    }
  }

  /** In a log that follows the rules, every round follows the rounds
      before it. */
  lemma TrainerLogRounds(log: seq<Round>, episodes: seq<Episode>, t0: Training, target: int, threshold: int)
    requires TrainerLog(log, episodes, t0, target, threshold)
    ensures forall i :: 0 <= i < |log| ==> RoundOk(log[..i], log[i], episodes, t0, target, threshold)
  {
    forall i | 0 <= i < |log|
      ensures RoundOk(log[..i], log[i], episodes, t0, target, threshold)
    {
      TrainerLogRound(log, i, episodes, t0, target, threshold);
    }
  }

  /** A log whose every round follows the rounds before it follows the
      rules. */
  lemma {:induction false} RoundsTrainerLog(log: seq<Round>, episodes: seq<Episode>, t0: Training, target: int, threshold: int)
    requires forall i :: 0 <= i < |log| ==> RoundOk(log[..i], log[i], episodes, t0, target, threshold)
    ensures TrainerLog(log, episodes, t0, target, threshold)
    decreases |log|
  {
    if log != [] {
      var n := |log| - 1;
      var init := log[..n];
      forall i | 0 <= i < n
        ensures RoundOk(init[..i], init[i], episodes, t0, target, threshold)
      {
        assert init[..i] == log[..i] && init[i] == log[i];
      }
      RoundsTrainerLog(init, episodes, t0, target, threshold);
      assert RoundOk(log[..n], log[n], episodes, t0, target, threshold);
    }
  }

  /** A fetch from position `start` of a stream accepts exactly the episodes
      of version `latest` in the window it took. */
  lemma FetchWindow(episodes: seq<Episode>, start: nat, latest: int, need: int)
    requires start <= |episodes|
    ensures var f := Fetch(episodes[start..], latest, need);
            && start + f.consumed <= |episodes|
            && f.accepted == OnPolicy(episodes[start..start + f.consumed], latest)
  {
    var s := episodes[start..];
    var f := Fetch(s, latest, need);
    FetchAccepted(s, latest, need);
    assert s[..f.consumed] == episodes[start..start + f.consumed];
  }

  /** A round that follows the rounds before it took its episodes from
      where they left the cursor, and accepted exactly those of the version
      their publications left current. */
  lemma RoundFetches(prev: seq<Round>, r: Round, episodes: seq<Episode>, t0: Training, target: int, threshold: int)
    requires RoundOk(prev, r, episodes, t0, target, threshold)
    ensures t0.cursor + Consumed(prev) + r.consumed <= |episodes|
    ensures r.accepted == OnPolicy(episodes[t0.cursor + Consumed(prev)..t0.cursor + Consumed(prev) + r.consumed],
                                   t0.latest + PublishCount(prev))
  {
    var start, latest := t0.cursor + Consumed(prev), t0.latest + PublishCount(prev);
    var f := Fetch(episodes[start..], latest, target);
    assert f.consumed == r.consumed && f.accepted == r.accepted;
    FetchWindow(episodes, start, latest, target);
  }

  /** Every episode a round of a trainer log stored carries the version
      current at that round: no stale episode is stored. */
  lemma TrainerLogVersions(log: seq<Round>, i: nat, episodes: seq<Episode>, t0: Training, target: int, threshold: int)
    requires TrainerLog(log, episodes, t0, target, threshold) && i < |log|
    ensures forall j :: 0 <= j < |log[i].accepted| ==> log[i].accepted[j].policyId == t0.latest + PublishCount(log[..i])
  {
    TrainerLogRound(log, i, episodes, t0, target, threshold);
    RoundVersions(log[..i], log[i], episodes, t0, target, threshold);
  }

  /** A round stores only episodes of the version current at that round. */
  lemma RoundVersions(prev: seq<Round>, r: Round, episodes: seq<Episode>, t0: Training, target: int, threshold: int)
    requires RoundOk(prev, r, episodes, t0, target, threshold)
    ensures forall j :: 0 <= j < |r.accepted| ==> r.accepted[j].policyId == t0.latest + PublishCount(prev)
  {
    var start, latest := t0.cursor + Consumed(prev), t0.latest + PublishCount(prev);
    var f := Fetch(episodes[start..], latest, target);
    assert f.accepted == r.accepted;
    FetchedEpisodes(episodes[start..], latest, target);
  }

  /** Two rounds that both follow the same rounds are the same round. */
  lemma RoundDeterminate(prev: seq<Round>, r: Round, r': Round, episodes: seq<Episode>, t0: Training,
                         target: int, threshold: int)
    requires RoundOk(prev, r, episodes, t0, target, threshold)
    requires RoundOk(prev, r', episodes, t0, target, threshold)
    ensures r == r'
  {
  }

  /** The stream decides the whole run: two logs of the same length, of
      trainers that started in the same state and read the same stream, are
      the same round by round, down to every publication and watermark. */
  lemma {:induction false} TrainerLogDeterminate(log: seq<Round>, log': seq<Round>, episodes: seq<Episode>, t0: Training,
                                                 target: int, threshold: int)
    requires TrainerLog(log, episodes, t0, target, threshold)
    requires TrainerLog(log', episodes, t0, target, threshold)
    requires |log| == |log'|
    ensures log == log'
    decreases |log|
  {
    if log != [] {
      var n := |log| - 1;
      TrainerLogDeterminate(log[..n], log'[..n], episodes, t0, target, threshold);
      TrainerLogRound(log, n, episodes, t0, target, threshold);
      TrainerLogRound(log', n, episodes, t0, target, threshold);
      RoundDeterminate(log[..n], log[n], log'[n], episodes, t0, target, threshold);
      SnocEqual(log, log');
    }
  }

  /** Two non-empty sequences with equal initial parts and equal last
      elements are equal. */
  lemma SnocEqual<T>(a: seq<T>, b: seq<T>)
    requires |a| == |b| > 0 && a[..|a| - 1] == b[..|b| - 1] && a[|a| - 1] == b[|b| - 1]
    ensures a == b
  {
    assert a == a[..|a| - 1] + [a[|a| - 1]] && b == b[..|b| - 1] + [b[|b| - 1]];
  }

  /** With a positive fetch target that covers the publish threshold, and a
      watermark not ahead of the total-steps counter, every round that trains
      publishes, and the watermark ends at the last round's fetched total. */
  lemma {:induction false} EveryRoundPublishes(log: seq<Round>, episodes: seq<Episode>, t0: Training, target: int, threshold: int)
    requires TrainerLog(log, episodes, t0, target, threshold)
    requires 0 < target && threshold <= target && t0.watermark <= t0.total
    ensures forall i :: 0 <= i < |log| && !log[i].blocked ==> log[i].published
    ensures Watermark(log, t0.watermark) <= t0.total + TotalLength(StoredBy(log))
    decreases |log|
  {
    if log != [] {
      var n := |log| - 1;
      var init, r := log[..n], log[n];
      assert log == init + [r];
      EveryRoundPublishes(init, episodes, t0, target, threshold);
      TotalLengthAppend(StoredBy(init), r.accepted);
      FetchedEpisodes(episodes[t0.cursor + Consumed(init)..], t0.latest + PublishCount(init), target);
      if !r.blocked {
        assert r.accepted != [];
      }
      forall i | 0 <= i < |log| && !log[i].blocked
        ensures log[i].published
      {
        if i < n {
          assert log[i] == init[i];
        }
      }
    }
  }

  /** The fetch of a trainer round took `t` to `t'` as `Fetch` describes it
      over the unread episodes of `episodes`, for the version `t` knew. */
  ghost predicate FetchedAs(t: Training, t': Training, episodes: seq<Episode>, target: int,
                            blocked: bool, accepted: seq<Episode>)
  {
    && t.cursor <= |episodes|
    && var f := Fetch(episodes[t.cursor..], t.latest, target);
    && t'.cursor == t.cursor + f.consumed && blocked == f.blocked && accepted == f.accepted
    && (blocked ==> t'.cursor == |episodes|)
  }

  /** What a trainer round that accepted `accepted` did to the state `t`:
      the accepted episodes, all of the version `t` knew, are stored and
      counted, and the environment-step count moves to the total-steps
      counter once one is accepted; a round that did not run dry fetched at
      least `target` steps and trains once, and then publishes the next
      version, moving the watermark to the environment-step count, exactly
      when at least `threshold` steps were fetched since the watermark. */
  ghost predicate RoundEffect(t: Training, t': Training, target: int, threshold: int,
                              blocked: bool, published: bool, accepted: seq<Episode>)
  {
    && t'.memory == t.memory + accepted
    && t'.total == t.total + TotalLength(accepted)
    && t'.episode == t.episode + |accepted|
    && (forall i :: 0 <= i < |accepted| ==> accepted[i].policyId == t.latest)
    && (accepted != [] ==> t'.env == t'.total && t'.complete)
    && (accepted == [] ==> t'.env == t.env && t'.complete == t.complete)
    && (blocked ==> t'.trained == t.trained)
    && (!blocked ==> TotalLength(accepted) >= target && t'.trained == t.trained + 1)
    && (published <==> !blocked && t'.total - t.watermark >= threshold)
    && (published ==>
          t'.latest == t.latest + 1 && t'.published == t.published + [t'.latest] && t'.watermark == t'.env)
    && (!published ==> t'.latest == t.latest && t'.published == t.published && t'.watermark == t.watermark)
  }

  /** The round a trainer round from `t` to `t'` adds to the log. */
  function RoundOf(t: Training, t': Training, blocked: bool, published: bool, accepted: seq<Episode>): Round
    requires t.cursor <= t'.cursor
  {
    Round(t'.cursor - t.cursor, accepted, t'.env, blocked, published)
  }

  /** The rounds of `log` took the trainer from `t0` to `t`: each follows
      the ones before it, only the last of them ran dry, when `blocked`, and
      the cursor, the counters and the watermark are where the rounds left
      them. */
  ghost predicate TrainerLogged(t0: Training, t: Training, log: seq<Round>, blocked: bool, episodes: seq<Episode>,
                                target: int, threshold: int)
  {
    && t.trained >= t0.trained
    && |log| == t.trained - t0.trained + (if blocked then 1 else 0)
    && (forall i :: 0 <= i < |log| ==> (log[i].blocked <==> blocked && i == |log| - 1))
    && TrainerLog(log, episodes, t0, target, threshold)
    && t.cursor == t0.cursor + Consumed(log)
    && t.total == t0.total + TotalLength(StoredBy(log))
    && t.env == EnvAfter(log, t0.env)
    && t.watermark == Watermark(log, t0.watermark)
    && t.latest == t0.latest + PublishCount(log)
  }

  /** The trainer went from `t0` to `t` storing `stored`: each stored episode
      is in the memory once, in order, and counted, and every training step
      was preceded by a fetch of at least `target` steps. */
  ghost predicate TrainerBooks(t0: Training, t: Training, stored: seq<Episode>, target: int)
  {
    && t.trained >= t0.trained
    && t.memory == t0.memory + stored
    && t.total == t0.total + TotalLength(stored)
    && t.episode == t0.episode + |stored|
    && t.complete == (if stored == [] then t0.complete else true)
    && TotalLength(stored) >= Rounds(t.trained - t0.trained, target)
  }

  /** The versions the trainer published going from `t0` to `t` are
      consecutive, and the episodes it stored are in version order. */
  ghost predicate TrainerVersions(t0: Training, t: Training, stored: seq<Episode>)
  {
    && t.latest >= t0.latest
    && t.published == t0.published + IdRange(t0.latest + 1, t.latest + 1)
    && StoredInOrder(stored, t0.latest, t.latest)
  }

  ghost predicate TrainerStored(t0: Training, t: Training, stored: seq<Episode>, target: int)
  {
    TrainerBooks(t0, t, stored, target) && TrainerVersions(t0, t, stored)
  }

  /** The trainer took `t0` to `t` in the rounds of `log`, reading the
      stream `episodes`. */
  ghost predicate TrainerRan(t0: Training, t: Training, log: seq<Round>, blocked: bool, episodes: seq<Episode>,
                             target: int, threshold: int)
  {
    TrainerLogged(t0, t, log, blocked, episodes, target, threshold) && TrainerStored(t0, t, StoredBy(log), target)
  }

  /** A round that fetched and acted from where the rounds of `log` left
      the trainer follows those rounds. */
  lemma RoundOkOf(t0: Training, t: Training, t': Training, log: seq<Round>, episodes: seq<Episode>,
                  target: int, threshold: int, blocked: bool, published: bool, accepted: seq<Episode>)
    requires t.cursor == t0.cursor + Consumed(log) && t.latest == t0.latest + PublishCount(log)
    requires t.total == t0.total + TotalLength(StoredBy(log)) && t.env == EnvAfter(log, t0.env)
    requires t.watermark == Watermark(log, t0.watermark)
    requires FetchedAs(t, t', episodes, target, blocked, accepted)
    requires RoundEffect(t, t', target, threshold, blocked, published, accepted)
    ensures t.cursor <= t'.cursor
    ensures RoundOk(log, RoundOf(t, t', blocked, published, accepted), episodes, t0, target, threshold)
  {
    TotalLengthAppend(StoredBy(log), accepted);
  }

  /** Appending a round keeps the rule that only the last round of a run
      ran dry. */
  lemma BlockedLast(log: seq<Round>, r: Round)
    requires forall i :: 0 <= i < |log| ==> !log[i].blocked
    ensures forall i :: 0 <= i < |log + [r]| ==> ((log + [r])[i].blocked <==> r.blocked && i == |log|)
  {
    forall i | 0 <= i < |log + [r]|
      ensures (log + [r])[i].blocked <==> r.blocked && i == |log|
    {
      if i < |log| {
        assert (log + [r])[i] == log[i];
      }
    }
  }

  lemma TrainerLoggedStep(t0: Training, t: Training, t': Training, log: seq<Round>, episodes: seq<Episode>,
                          target: int, threshold: int, blocked: bool, published: bool, accepted: seq<Episode>)
    requires TrainerLogged(t0, t, log, false, episodes, target, threshold)
    requires FetchedAs(t, t', episodes, target, blocked, accepted)
    requires RoundEffect(t, t', target, threshold, blocked, published, accepted)
    ensures t.cursor <= t'.cursor
    ensures TrainerLogged(t0, t', log + [RoundOf(t, t', blocked, published, accepted)], blocked, episodes, target, threshold)
  {
    RoundOkOf(t0, t, t', log, episodes, target, threshold, blocked, published, accepted);
    var r := RoundOf(t, t', blocked, published, accepted);
    BlockedLast(log, r);
    TrainerLogSnoc(log, r, episodes, t0, target, threshold);
    TotalLengthAppend(StoredBy(log), accepted);
  }

  lemma TrainerBooksStep(t0: Training, t: Training, t': Training, stored: seq<Episode>,
                         target: int, threshold: int, blocked: bool, published: bool, accepted: seq<Episode>)
    requires TrainerBooks(t0, t, stored, target)
    requires RoundEffect(t, t', target, threshold, blocked, published, accepted)
    ensures TrainerBooks(t0, t', stored + accepted, target)
  {
    TotalLengthAppend(stored, accepted);
    assert t0.memory + stored + accepted == t0.memory + (stored + accepted);
    if !blocked {
      RoundsSnoc(t.trained - t0.trained, target);
    }
  }

  lemma TrainerVersionsStep(t0: Training, t: Training, t': Training, stored: seq<Episode>,
                            target: int, threshold: int, blocked: bool, published: bool, accepted: seq<Episode>)
    requires TrainerVersions(t0, t, stored)
    requires RoundEffect(t, t', target, threshold, blocked, published, accepted)
    ensures TrainerVersions(t0, t', stored + accepted)
  {
    RoundKeepsOrder(stored, accepted, t0.latest, t.latest, t'.latest, t0.published, t.published, t'.published);
  }

  /** A round whose fetch and effect follow the rules extends a trainer run
      that has not run dry by that round. */
  lemma TrainerRanStep(t0: Training, t: Training, t': Training, log: seq<Round>, episodes: seq<Episode>,
                       target: int, threshold: int, blocked: bool, published: bool, accepted: seq<Episode>)
    requires TrainerRan(t0, t, log, false, episodes, target, threshold)
    requires FetchedAs(t, t', episodes, target, blocked, accepted)
    requires RoundEffect(t, t', target, threshold, blocked, published, accepted)
    ensures t.cursor <= t'.cursor
    ensures TrainerRan(t0, t', log + [RoundOf(t, t', blocked, published, accepted)], blocked, episodes, target, threshold)
  {
    var r := RoundOf(t, t', blocked, published, accepted);
    TrainerLoggedStep(t0, t, t', log, episodes, target, threshold, blocked, published, accepted);
    TrainerBooksStep(t0, t, t', StoredBy(log), target, threshold, blocked, published, accepted);
    TrainerVersionsStep(t0, t, t', StoredBy(log), target, threshold, blocked, published, accepted);
    TrainerLogSnoc(log, r, episodes, t0, target, threshold);
  }

  /** What a trainer run did, field by field: it read the stream from its
      cursor on, each round storing only episodes of the version current at
      that round; every training step was preceded by a full fetch; the
      stored episodes are those of its rounds, in order and in version order;
      and the published versions are consecutive. */
  lemma TrainerRanFacts(t0: Training, t: Training, log: seq<Round>, blocked: bool, episodes: seq<Episode>,
                        target: int, threshold: int)
    requires TrainerRan(t0, t, log, blocked, episodes, target, threshold)
    ensures t.trained >= t0.trained && t.latest >= t0.latest
    ensures t.cursor == t0.cursor + Consumed(log)
    ensures forall i, j :: 0 <= i < |log| && 0 <= j < |log[i].accepted| ==>
              log[i].accepted[j].policyId == t0.latest + PublishCount(log[..i])
    ensures t.memory == t0.memory + StoredBy(log)
    ensures t.complete == (if StoredBy(log) == [] then t0.complete else true)
    ensures t.total == t0.total + TotalLength(StoredBy(log))
    ensures t.published == t0.published + IdRange(t0.latest + 1, t.latest + 1)
    ensures StoredInOrder(StoredBy(log), t0.latest, t.latest)
    ensures TotalLength(StoredBy(log)) >= (t.trained - t0.trained) * target
  {
    RoundsProduct(t.trained - t0.trained, target);
    forall i | 0 <= i < |log|
      ensures forall j :: 0 <= j < |log[i].accepted| ==> log[i].accepted[j].policyId == t0.latest + PublishCount(log[..i])
    {
      TrainerLogVersions(log, i, episodes, t0, target, threshold);
    }
  }

  /** Consuming the next episode `s[n]` of the fetch: a fresh one is
      accepted, a stale one leaves the accepted episodes and the bookkeeping
      as they were. */
  lemma FetchStep(b0: Books, s: seq<Episode>, n: nat, latest: int)
    requires n < |s|
    ensures TotalLength(OnPolicy(s[..n + 1], latest))
            == TotalLength(OnPolicy(s[..n], latest)) + (if s[n].policyId == latest then s[n].length else 0)
    ensures AcceptAll(b0, OnPolicy(s[..n + 1], latest))
            == if s[n].policyId == latest then Accept(AcceptAll(b0, OnPolicy(s[..n], latest)), s[n])
               else AcceptAll(b0, OnPolicy(s[..n], latest))
  {
    assert s[..n + 1] == s[..n] + [s[n]];
    OnPolicySnoc(s[..n], s[n], latest);
    OnPolicySingle(s[n], latest);
    AcceptAllAppend(b0, OnPolicy(s[..n], latest), s[n]);
    assert OnPolicy(s[..n], latest) + [] == OnPolicy(s[..n], latest);
  }

  /** Where the fetch loop stops, described by its exit conditions, is where
      `Fetch` stops. */
  lemma FetchOutcome(s: seq<Episode>, n: nat, latest: int, need: int, blocked: bool)
    requires n <= |s|
    requires n > 0 ==> TotalLength(OnPolicy(s[..n - 1], latest)) < need
    requires blocked ==> n == |s| && TotalLength(OnPolicy(s[..n], latest)) < need
    requires !blocked ==> TotalLength(OnPolicy(s[..n], latest)) >= need
    ensures Fetch(s, latest, need) == FetchResult(n, OnPolicy(s[..n], latest), blocked)
  {
    if blocked {
      assert s[..n] == s;
      FetchRunsDry(s, latest, need);
    } else {
      FetchStopsAt(s, n, latest, need);
    }
  }

  class MastGraphManager {
    const agent: Agent
    var firstPolicyPublish: bool
    var lastPublishStep: int
    var latestPolicyId: int
    /** The environment-steps entry of the step counter. */
    var envSteps: nat
    /** The training-steps entry of the step counter. */
    var trainingSteps: nat
    var phase: RunPhase
    /** Environment-step counts at which a policy load was attempted. */
    ghost var loadAttemptSteps: seq<nat>
    /** The phase during each acting call. */
    ghost var actPhases: seq<RunPhase>
    /** The phase right after each evaluation episode. */
    ghost var phasesAfterEpisode: seq<RunPhase>

    constructor (agent: Agent)
      ensures this.agent == agent
      ensures !firstPolicyPublish && lastPublishStep == 0 && latestPolicyId == 0
      ensures envSteps == 0 && trainingSteps == 0 && phase == RunPhase.Undefined
      ensures loadAttemptSteps == [] && actPhases == [] && phasesAfterEpisode == []
    {
      this.agent := agent;
      firstPolicyPublish := false;
      lastPublishStep := 0;
      latestPolicyId := 0;
      envSteps, trainingSteps, phase := 0, 0, RunPhase.Undefined;
      loadAttemptSteps, actPhases, phasesAfterEpisode := [], [], [];
    }

    /** The fields an acting loop changes, as values. */
    ghost function Now(store: DataStore): Acting
      reads this`envSteps, this`latestPolicyId, this`actPhases, this`loadAttemptSteps, this`phasesAfterEpisode
      reads agent`acts, agent`policyId, store`polls, store`loadCalls, store`loadsGranted
    {
      Acting(envSteps, agent.acts, store.polls, store.loadCalls, store.loadsGranted, latestPolicyId, agent.policyId,
             actPhases, loadAttemptSteps, phasesAfterEpisode)
    }

    /** One acting call of the agent: at least one environment step. */
    method Act()
      modifies this`envSteps, this`actPhases, agent`acts
      ensures agent.acts == old(agent.acts) + 1
      ensures envSteps == old(envSteps) + StepsTaken(agent.extraSteps, old(agent.acts), agent.acts)
      ensures actPhases == old(actPhases) + [phase]
    {
      envSteps := envSteps + 1 + agent.extraSteps(agent.acts);
      agent.acts := agent.acts + 1;
      actPhases := actPhases + [phase];
    }

    /** One training update; it advances the training-step counter by one. */
    method Train()
      modifies this`trainingSteps
      ensures trainingSteps == old(trainingSteps) + 1
    {
      trainingSteps := trainingSteps + 1;
    }

    /** Tries to load a newer policy; on success the known version goes up by
        one and the agent tags what it produces with the new version. */
    method RefreshPolicy(store: DataStore) returns (loaded: bool)
      requires store.Valid()
      modifies this`latestPolicyId, this`loadAttemptSteps, agent`policyId
      modifies store`loadCalls, store`loadsGranted
      ensures store.Valid()
      ensures loadAttemptSteps == old(loadAttemptSteps) + [envSteps]
      ensures store.loadCalls == old(store.loadCalls) + 1
      ensures loaded == store.loadAvailable(old(store.loadCalls))
      ensures store.loadsGranted == old(store.loadsGranted) + (if loaded then 1 else 0)
      ensures loaded ==> latestPolicyId == old(latestPolicyId) + 1 && agent.policyId == latestPolicyId
      ensures !loaded ==> latestPolicyId == old(latestPolicyId) && agent.policyId == old(agent.policyId)
    {
      loadAttemptSteps := loadAttemptSteps + [envSteps];
      loaded := store.AttemptLoadPolicy();
      if loaded {
        latestPolicyId := latestPolicyId + 1;
        agent.policyId := latestPolicyId;
      }
    }

    /** One pass of the actor's loop once the end signal was found unset:
        refresh the policy when the step count is a multiple of
        `PolicyCheckInterval`, then act once. */
    method ActorStep(store: DataStore)
      requires store.Valid()
      modifies this`envSteps, this`latestPolicyId, this`loadAttemptSteps, this`actPhases
      modifies agent`policyId, agent`acts, store`loadCalls, store`loadsGranted
      ensures store.Valid()
      ensures agent.acts == old(agent.acts) + 1
      ensures envSteps == old(envSteps) + 1 + agent.extraSteps(old(agent.acts))
      ensures actPhases == old(actPhases) + [phase]
      // a refresh is tried exactly when the step count is a multiple of the interval
      ensures loadAttemptSteps == old(loadAttemptSteps)
                                  + (if old(envSteps) % PolicyCheckInterval == 0 then [old(envSteps)] else [])
      ensures store.loadCalls == old(store.loadCalls) + (|loadAttemptSteps| - |old(loadAttemptSteps)|)
      ensures store.loadsGranted >= old(store.loadsGranted)
      ensures latestPolicyId == old(latestPolicyId) + (store.loadsGranted - old(store.loadsGranted))
      ensures latestPolicyId == old(latestPolicyId) ==> agent.policyId == old(agent.policyId)
      ensures latestPolicyId != old(latestPolicyId) ==> agent.policyId == latestPolicyId
    {
      if envSteps % PolicyCheckInterval == 0 {
        var _ := RefreshPolicy(store);
      }
      Act();
    }

    /** One evaluation episode once the end signal was found unset: try to
        load a newer policy and act once, in the test phase when
        `evaluateOnly`, switching back to the training phase afterwards. */
    method EvaluateEpisode(evaluateOnly: bool, store: DataStore)
      requires store.Valid()
      modifies this`envSteps, this`latestPolicyId, this`phase, this`loadAttemptSteps, this`actPhases
      modifies this`phasesAfterEpisode, agent`policyId, agent`acts, store`loadCalls, store`loadsGranted
      ensures store.Valid()
      ensures agent.acts == old(agent.acts) + 1
      ensures envSteps == old(envSteps) + 1 + agent.extraSteps(old(agent.acts))
      // a load is tried before every episode, at the step count it starts at
      ensures store.loadCalls == old(store.loadCalls) + 1
      ensures loadAttemptSteps == old(loadAttemptSteps) + [old(envSteps)]
      ensures actPhases == old(actPhases) + [if evaluateOnly then RunPhase.Test else old(phase)]
      ensures phase == (if evaluateOnly then RunPhase.Train else old(phase))
      ensures phasesAfterEpisode == old(phasesAfterEpisode) + [phase]
      ensures store.loadsGranted >= old(store.loadsGranted)
      ensures latestPolicyId == old(latestPolicyId) + (store.loadsGranted - old(store.loadsGranted))
      ensures latestPolicyId == old(latestPolicyId) ==> agent.policyId == old(agent.policyId)
      ensures latestPolicyId != old(latestPolicyId) ==> agent.policyId == latestPolicyId
    {
      var _ := RefreshPolicy(store);
      if evaluateOnly {
        phase := RunPhase.Test;
      }
      Act();
      if evaluateOnly {
        phase := RunPhase.Train;
      }
      phasesAfterEpisode := phasesAfterEpisode + [phase];
    }

    /** The actor's loop: act until the environment-step count reaches
        `countEnd` or the store signals the end of the run. */
    method ActorLoop(countEnd: int, store: DataStore, ghost s0: Acting)
      requires store.Valid() && s0 == Now(store)
      modifies this`envSteps, this`latestPolicyId, this`loadAttemptSteps, this`actPhases
      modifies agent`policyId, agent`acts, store`polls, store`loadCalls, store`loadsGranted
      ensures store.Valid()
      ensures ActorEnded(s0, Now(store), agent.extraSteps, store.endSignal, phase, countEnd)
    {
      ghost var s := s0;
      while envSteps < countEnd
        invariant store.Valid()
        invariant s == Now(store) && ActorRan(s0, s, agent.extraSteps, store.endSignal, phase, countEnd)
        decreases countEnd - envSteps
      {
        var ended := store.EndOfPolicies();
        if ended {
          break;
        }
        ActorStep(store);
        ActorRanStep(s0, s, Now(store), agent.extraSteps, store.endSignal, phase, countEnd);
        s := Now(store);
      }
      assert Now(store) == s || Now(store).(polls := Now(store).polls - 1) == s;
    }

    /** The actor: acts on the environment for `totalStepsToAct` environment
        steps, in the training phase, stopping early when the store signals
        the end of the run, and tries to refresh its policy whenever its step
        count is a multiple of `PolicyCheckInterval`. */
    method Actor(totalStepsToAct: int, store: DataStore)
      requires store.Valid()
      modifies this`envSteps, this`latestPolicyId, this`phase, this`loadAttemptSteps, this`actPhases
      modifies agent`policyId, agent`acts, store`polls, store`loadCalls, store`loadsGranted
      ensures store.Valid()
      ensures phase == old(phase)
      // nothing runs without a positive budget
      ensures totalStepsToAct <= 0 ==> Now(store) == old(Now(store))
      // with one, the loop runs in the training phase until the budget is used
      // up or the store signals the end of the run
      ensures totalStepsToAct > 0 ==>
                ActorEnded(old(Now(store)), Now(store), agent.extraSteps, store.endSignal, RunPhase.Train,
                           old(envSteps) + totalStepsToAct)
    {
      ghost var s0 := Now(store);
      if totalStepsToAct > 0 {
        var savedPhase, countEnd := phase, envSteps + totalStepsToAct;
        phase := RunPhase.Train;
        ActorLoop(countEnd, store, s0);
        ghost var f := Now(store);
        phase := savedPhase;
        assert Now(store) == f;
      }
    }

    /** The evaluator's loop: whole evaluation episodes, from the state
        `s0`, until the environment-step count reaches `countEnd` or the store
        signals the end of the run. */
    method EvaluateEpisodes(countEnd: int, evaluateOnly: bool, store: DataStore, ghost s0: Acting)
      requires store.Valid() && phase == RunPhase.Test && s0 == Now(store)
      modifies this`envSteps, this`latestPolicyId, this`phase, this`loadAttemptSteps, this`actPhases
      modifies this`phasesAfterEpisode, agent`policyId, agent`acts, store`polls, store`loadCalls, store`loadsGranted
      ensures store.Valid()
      ensures EvaluatorEnded(s0, Now(store), agent.extraSteps, store.endSignal,
                             if evaluateOnly then RunPhase.Train else RunPhase.Test, countEnd)
    {
      ghost var afterPhase := if evaluateOnly then RunPhase.Train else RunPhase.Test;
      ghost var s := s0;
      while envSteps < countEnd
        invariant store.Valid() && (evaluateOnly || phase == RunPhase.Test)
        invariant s == Now(store) && EvaluatorRan(s0, s, agent.extraSteps, store.endSignal, afterPhase, countEnd)
        decreases countEnd - envSteps
      {
        var ended := store.EndOfPolicies();
        if ended {
          break;
        }
        EvaluateEpisode(evaluateOnly, store);
        EvaluatorRanStep(s0, s, Now(store), agent.extraSteps, store.endSignal, afterPhase, countEnd);
        s := Now(store);
      }
      assert Now(store) == s || Now(store).(polls := Now(store).polls - 1) == s;
    }

    /** The evaluator: runs whole evaluation episodes for `totalStepsToAct`
        environment steps, stopping early when the store signals the end of
        the run, tries to load a newer policy before every episode, and
        finally reports whether the success criterion was reached. With
        `evaluateOnly`, every episode is run in the test phase and followed by
        a switch back to the training phase. */
    method Evaluate(totalStepsToAct: int, evaluateOnly: bool, store: DataStore) returns (stop: bool)
      requires store.Valid()
      modifies this`envSteps, this`latestPolicyId, this`phase, this`loadAttemptSteps, this`actPhases
      modifies this`phasesAfterEpisode, agent`policyId, agent`acts, store`polls, store`loadCalls, store`loadsGranted
      ensures store.Valid()
      ensures phase == old(phase)
      ensures stop == agent.successAfter(agent.acts)
      // nothing runs without a positive budget
      ensures totalStepsToAct <= 0 ==> Now(store) == old(Now(store))
      // with one, episodes run in the test phase until the budget is used up
      // or the store signals the end of the run
      ensures totalStepsToAct > 0 ==>
                EvaluatorEnded(old(Now(store)), Now(store), agent.extraSteps, store.endSignal,
                               if evaluateOnly then RunPhase.Train else RunPhase.Test, old(envSteps) + totalStepsToAct)
    {
      ghost var s0 := Now(store);
      if totalStepsToAct > 0 {
        var savedPhase, countEnd := phase, envSteps + totalStepsToAct;
        phase := RunPhase.Test;
        EvaluateEpisodes(countEnd, evaluateOnly, store, s0);
        ghost var f := Now(store);
        phase := savedPhase;
        assert Now(store) == f;
      }
      stop := agent.successAfter(agent.acts);
    }

    /** The publish step of the trainer: when at least `threshold` steps were
        fetched since the last publication, the policy version goes up by one,
        that version is saved to the store, and the watermark moves to the
        current environment-step count. */
    method PublishIfDue(threshold: int, store: DataStore) returns (published: bool)
      modifies this`latestPolicyId, this`lastPublishStep, store`published
      ensures published <==> agent.totalStepsCounter - old(lastPublishStep) >= threshold
      ensures published ==>
                latestPolicyId == old(latestPolicyId) + 1
                && store.published == old(store.published) + [latestPolicyId]
                && lastPublishStep == envSteps
      ensures !published ==>
                latestPolicyId == old(latestPolicyId) && store.published == old(store.published)
                && lastPublishStep == old(lastPublishStep)
    {
      published := agent.totalStepsCounter - lastPublishStep >= threshold;
      if published {
        latestPolicyId := latestPolicyId + 1;
        store.SavePolicy(latestPolicyId);
        lastPublishStep := envSteps;
      }
    }

    /** The agent's bookkeeping that the fetch loop updates. */
    ghost function Bookkeeping(): Books
      reads this, agent
    {
      Books(agent.memory, agent.totalStepsCounter, agent.currentEpisode, agent.episodeBufferComplete, envSteps)
    }

    /** Stores an accepted episode in the agent's memory and counts it. */
    method StoreAccepted(episode: Episode)
      modifies this`envSteps, agent`memory, agent`totalStepsCounter, agent`currentEpisode
      modifies agent`episodeBufferComplete
      ensures Bookkeeping() == Accept(old(Bookkeeping()), episode)
    {
      agent.memory := agent.memory + [episode];
      agent.totalStepsCounter := agent.totalStepsCounter + episode.length;
      agent.currentEpisode := agent.currentEpisode + 1;
      agent.episodeBufferComplete := true;
      envSteps := agent.totalStepsCounter;
    }

    /** The fetch loop: pulls whole episodes from the store until the
        on-policy episodes among them add up to `numConsecutivePlayingSteps`
        environment steps. Stale episodes are skipped; each accepted one is
        stored in the agent's memory and counted. `blocked` says the
        subscription had nothing more to deliver before the target was
        reached. */
    method FetchEpisodes(numConsecutivePlayingSteps: int, store: DataStore) returns (blocked: bool)
      requires store.Valid()
      modifies this`envSteps, agent`memory, agent`totalStepsCounter, agent`currentEpisode
      modifies agent`episodeBufferComplete, store`cursor
      ensures store.Valid()
      ensures var r := Fetch(store.episodes[old(store.cursor)..], latestPolicyId, numConsecutivePlayingSteps);
              && store.cursor == old(store.cursor) + r.consumed
              && blocked == r.blocked
              && Bookkeeping() == AcceptAll(old(Bookkeeping()), r.accepted)
    {
      var steps := 0;
      blocked := false;
      ghost var start := store.cursor;
      ghost var all := store.episodes[start..];
      ghost var n := 0;
      ghost var b0 := Bookkeeping();
      while steps < numConsecutivePlayingSteps
        invariant store.Valid() && n <= |all| && store.cursor == start + n
        invariant steps == TotalLength(OnPolicy(all[..n], latestPolicyId))
        invariant n > 0 ==> TotalLength(OnPolicy(all[..n - 1], latestPolicyId)) < numConsecutivePlayingSteps
        invariant Bookkeeping() == AcceptAll(b0, OnPolicy(all[..n], latestPolicyId))
        decreases |store.episodes| - store.cursor
      {
        var next := store.NextEpisode();
        if next.None? {
          blocked := true;
          break;
        }
        var episode := next.value;
        FetchStep(b0, all, n, latestPolicyId);
        n := n + 1;
        if episode.policyId != latestPolicyId {
          continue;
        }
        steps := steps + episode.length;
        StoreAccepted(episode);
      }
      FetchOutcome(all, n, latestPolicyId, numConsecutivePlayingSteps, blocked);
    }

    /** Fetches on-policy episodes, in the training phase; see
        `FetchEpisodes`. */
    method FetchFromWorker(numConsecutivePlayingSteps: int, store: DataStore) returns (blocked: bool)
      requires store.Valid()
      modifies this`envSteps, this`phase, agent`memory, agent`totalStepsCounter, agent`currentEpisode
      modifies agent`episodeBufferComplete, store`cursor
      ensures store.Valid()
      ensures phase == old(phase)
      ensures var r := Fetch(store.episodes[old(store.cursor)..], latestPolicyId, numConsecutivePlayingSteps);
              && store.cursor == old(store.cursor) + r.consumed
              && blocked == r.blocked
              && Bookkeeping() == AcceptAll(old(Bookkeeping()), r.accepted)
    {
      var savedPhase := phase;
      phase := RunPhase.Train;
      blocked := FetchEpisodes(numConsecutivePlayingSteps, store);
      phase := savedPhase;
    }

    /** The trainer's state, as a value. */
    ghost function TrainNow(store: DataStore): Training
      reads this`envSteps, this`trainingSteps, this`latestPolicyId, this`lastPublishStep
      reads agent`memory, agent`totalStepsCounter, agent`currentEpisode, agent`episodeBufferComplete
      reads store`cursor, store`published
    {
      Training(agent.memory, agent.totalStepsCounter, agent.currentEpisode, agent.episodeBufferComplete, envSteps,
               trainingSteps, latestPolicyId, lastPublishStep, store.cursor, store.published)
    }

    /** One round of the trainer's loop, from the state `t`: a fetch and,
        unless the subscription ran dry, one training update followed by the
        publish step. */
    method TrainRound(numConsecutivePlayingSteps: int, publishThreshold: int, store: DataStore, ghost t: Training)
      returns (blocked: bool, published: bool, ghost accepted: seq<Episode>)
      requires store.Valid() && t == TrainNow(store)
      modifies this`envSteps, this`trainingSteps, this`latestPolicyId, this`lastPublishStep, this`phase
      modifies agent`memory, agent`totalStepsCounter, agent`currentEpisode, agent`episodeBufferComplete
      modifies store`cursor, store`published
      ensures store.Valid() && phase == old(phase)
      ensures FetchedAs(t, TrainNow(store), store.episodes, numConsecutivePlayingSteps, blocked, accepted)
      ensures RoundEffect(t, TrainNow(store), numConsecutivePlayingSteps, publishThreshold, blocked, published, accepted)
    {
      ghost var before := Bookkeeping();
      ghost var rest := store.episodes[store.cursor..];
      blocked := FetchFromWorker(numConsecutivePlayingSteps, store);
      accepted := Fetch(rest, t.latest, numConsecutivePlayingSteps).accepted;
      FetchedEpisodes(rest, t.latest, numConsecutivePlayingSteps);
      AcceptAllBookkeeping(before, accepted);
      published := false;
      if !blocked {
        Train();
        published := PublishIfDue(publishThreshold, store);
      }
    }

    /** The trainer's loop: rounds of fetching and training, from the state
        `t0`, until the training-step count reaches `countEnd` or the
        subscription runs dry. */
    method TrainerLoop(countEnd: int, numConsecutivePlayingSteps: int, publishThreshold: int, store: DataStore,
                       ghost t0: Training)
      returns (blocked: bool, ghost log: seq<Round>)
      requires store.Valid() && t0 == TrainNow(store)
      modifies this`envSteps, this`trainingSteps, this`latestPolicyId, this`lastPublishStep, this`phase
      modifies agent`memory, agent`totalStepsCounter, agent`currentEpisode, agent`episodeBufferComplete
      modifies store`cursor, store`published
      ensures store.Valid() && phase == old(phase)
      ensures !blocked ==> trainingSteps >= countEnd
      ensures old(trainingSteps) < countEnd ==> trainingSteps <= countEnd
      ensures blocked ==> trainingSteps < countEnd && store.cursor == |store.episodes|
      ensures TrainerRan(t0, TrainNow(store), log, blocked, store.episodes, numConsecutivePlayingSteps, publishThreshold)
    {
      blocked, log := false, [];
      ghost var t := t0;
      while trainingSteps < countEnd
        invariant store.Valid() && phase == old(phase)
        invariant old(trainingSteps) < countEnd ==> trainingSteps <= countEnd
        invariant t == TrainNow(store) && TrainerRan(t0, t, log, false, store.episodes, numConsecutivePlayingSteps, publishThreshold)
        decreases countEnd - trainingSteps
      {
        ghost var accepted;
        var published;
        blocked, published, accepted := TrainRound(numConsecutivePlayingSteps, publishThreshold, store, t);
        TrainerRanStep(t0, t, TrainNow(store), log, store.episodes, numConsecutivePlayingSteps, publishThreshold,
                       blocked, published, accepted);
        log := log + [RoundOf(t, TrainNow(store), blocked, published, accepted)];
        t := TrainNow(store);
        if blocked {
          break;
        }
      }
    }

    /** The trainer: for `totalStepsToTrain` training steps, fetches
        `numConsecutivePlayingSteps` on-policy environment steps, trains once,
        and publishes a new policy version whenever at least
        `publishThreshold` steps were fetched since the last publication.
        `blocked` says it stopped because the subscription ran dry; `log`
        holds its rounds. */
    method Trainer(totalStepsToTrain: int, numConsecutivePlayingSteps: int, publishThreshold: int, store: DataStore)
      returns (blocked: bool, ghost log: seq<Round>)
      requires store.Valid()
      modifies this`envSteps, this`trainingSteps, this`latestPolicyId, this`lastPublishStep, this`phase
      modifies agent`memory, agent`totalStepsCounter, agent`currentEpisode, agent`episodeBufferComplete
      modifies store`cursor, store`published
      ensures store.Valid()
      ensures phase == old(phase)
      // nothing runs without a positive budget
      ensures totalStepsToTrain <= 0 ==> !blocked && log == [] && TrainNow(store) == old(TrainNow(store))
      // with one, it trains for the budget unless the subscription runs dry
      ensures totalStepsToTrain > 0 && !blocked ==> trainingSteps == old(trainingSteps) + totalStepsToTrain
      ensures blocked ==> trainingSteps < old(trainingSteps) + totalStepsToTrain && store.cursor == |store.episodes|
      // every round reads the stream from the cursor on and follows the publish rule
      ensures TrainerRan(old(TrainNow(store)), TrainNow(store), log, blocked, store.episodes,
                         numConsecutivePlayingSteps, publishThreshold)
    {
      ghost var t0 := TrainNow(store);
      blocked, log := false, [];
      if totalStepsToTrain > 0 {
        var savedPhase, countEnd := phase, trainingSteps + totalStepsToTrain;
        phase := RunPhase.Train;
        blocked, log := TrainerLoop(countEnd, numConsecutivePlayingSteps, publishThreshold, store, t0);
        ghost var f := TrainNow(store);
        phase := savedPhase;
        assert TrainNow(store) == f;
      }
    }
  }
}
