# MAST graph manager: a Dafny model of the coordination protocol

`MASTGraphManager` runs one process in one of three roles. The roles talk to
each other only through a shared data store:

- **actor**: acts on the environment. When an act is about to start at a
  step count that is a multiple of 200, it first tries to load a newer
  policy. It stops when its step budget is used up or when the
  store signals the end of the run.
- **evaluator**: runs whole evaluation episodes and tries to load a newer
  policy before each one. With `evaluate_only` it runs each episode in the
  TEST phase and switches back to TRAIN afterwards. At the end it reports
  whether the success criterion was reached.
- **trainer**: fetches whole episodes from the actors and discards the stale
  ones, meaning those produced by a policy version other than its current
  one. It keeps fetching until the accepted episodes add up to a target
  number of environment steps, then trains once. It publishes a new policy
  version whenever enough steps were fetched since the last publication.

The model has three modules:

- `Episodes` (`episodes.dfy`): the episode record and a pure specification of
  the trainer's fetch loop over a stream of incoming episodes. `OnPolicy` is
  the fresh episodes of a stream, `TotalLength` their lengths added up, and
  `Fetch` where the loop stops, what it keeps and whether it runs dry. The
  module also holds the lemmas that characterise `Fetch`.
- `Collaborators` (`collaborators.dfy`): the store and the agent, as classes
  whose answers are given as data:
  - `endSignal(k)` is the answer to the k-th end-of-run poll;
  - `loadAvailable(k)` is the answer to the k-th policy-load attempt (the
    store's invariant `Valid` pins the count of granted loads to the number
    of yes answers among the attempts made so far);
  - `episodes` is the subscription's stream, in order;
  - `extraSteps(k)` is the number of steps beyond the first that the k-th
    acting call consumes;
  - `successAfter(k)` is the answer of the stopping criterion after k acting
    calls.
- `MastGraph` (`mast_graph_manager.dfy`): the class `MastGraphManager`. Its
  fields are:
  - `latestPolicyId`;
  - `lastPublishStep`;
  - `firstPolicyPublish`;
  - the environment-step and training-step counters;
  - the run phase.

  Each role is an imperative method with loop invariants, proved against the
  `Episodes` specification and against value-level records of what a role
  has done so far. `Acting` holds the fields an acting loop changes;
  `ActorRan` and `EvaluatorRan` say what the actor's and the evaluator's
  loops have done from a starting state, with the refresh points given by
  `Checkpoints` of the act starts `ActStarts`. `Training` holds the fields a
  trainer round changes; a trainer run is logged as a sequence of `Round`s,
  and `TrainerLog` says that each round follows the fetch and publish rules
  given the rounds before it: a round's fetch is the `Fetch` of the stream
  from where the earlier rounds left the cursor, for the policy id their
  publications left current. Each role's loop sits in its own method
  (`ActorLoop`, `EvaluateEpisodes`, `TrainerLoop`). The role method around
  it checks the budget and saves and restores the phase, as `phase_context`
  does. Ghost fields record the history the contracts speak about:
  - the step counts at which a policy load was attempted;
  - the phase during each acting call;
  - the phase after each evaluation episode;
  - the store's sequence of published versions.

## Model

| member | source | states |
|---|---|---|
| Episodes.OnPolicy | rl_coach/graph_managers/mast_graph_manager.py:189-200 | the trainer never keeps more episodes than it receives |
| Episodes.OnPolicyMember | rl_coach/graph_managers/mast_graph_manager.py:190-200 | an episode is kept if and only if it was received and carries the trainer's current policy id; a stale episode is never kept |
| Episodes.OnPolicyAllLatest | rl_coach/graph_managers/mast_graph_manager.py:190-200 | every kept episode carries the trainer's current policy id |
| Episodes.Fetch | rl_coach/graph_managers/mast_graph_manager.py:186-200 | a fetch consumes at most the episodes available, and one that runs dry has consumed all of them |
| Episodes.FetchAccepted | rl_coach/graph_managers/mast_graph_manager.py:186-200 | a fetch stores exactly the on-policy episodes among those it consumed, in arrival order |
| Episodes.FetchExit | rl_coach/graph_managers/mast_graph_manager.py:186-187 | a fetch ends normally if and only if the accepted lengths add up to at least the target; otherwise it ran dry |
| Episodes.FetchMinimal | rl_coach/graph_managers/mast_graph_manager.py:186-199 | a fetch never stops early: before its last consumed episode the accepted lengths were still below the target |
| Episodes.FetchLastAccepted | rl_coach/graph_managers/mast_graph_manager.py:186-199 | a fetch with a positive target that does not run dry ends on an accepted episode, never on a stale one |
| Episodes.FetchOvershoot | rl_coach/graph_managers/mast_graph_manager.py:186-199 | a completed fetch collects at least its target and overshoots it by less than the length of its last accepted episode |
| Episodes.FetchedEpisodes | rl_coach/graph_managers/mast_graph_manager.py:186-200 | everything a fetch stores carries the current policy id, and a completed fetch stores at least its target |
| Episodes.FetchEnough | rl_coach/graph_managers/mast_graph_manager.py:186-188 | when the stream holds enough on-policy steps, the fetch completes |
| Episodes.FetchStopsAt | rl_coach/graph_managers/mast_graph_manager.py:186-200 | if the first n episodes reach the target and the first n-1 do not, the fetch consumes exactly n episodes and stores their on-policy ones |
| Episodes.FetchRunsDry | rl_coach/graph_managers/mast_graph_manager.py:186-188 | if the whole stream falls short of the target, the fetch consumes all of it, stores its on-policy episodes and runs dry |
| Episodes.FetchExample | rl_coach/graph_managers/mast_graph_manager.py:186-203 | at policy 3 with target 200, episodes of lengths 80 (policy 3), 150 (policy 2) and 140 (policy 3) give the first and third stored and 220 steps counted |
| MastGraph.StepsTaken | rl_coach/graph_managers/mast_graph_manager.py:62-66 | each acting call advances the environment-step count by at least one |
| MastGraph.ActStartsAt | rl_coach/graph_managers/mast_graph_manager.py:61-79 | the i-th acting call of a loop starts at the loop's starting step count plus the steps of the calls before it |
| MastGraph.CheckpointsMember | rl_coach/graph_managers/mast_graph_manager.py:70 | a step count is a refresh point if and only if an acting call starts there and it is a multiple of 200 |
| MastGraph.CheckpointsBelow | rl_coach/graph_managers/mast_graph_manager.py:62-70 | every refresh point of a loop is a multiple of 200 and lies below the loop's end count |
| MastGraph.ActorRanStep | rl_coach/graph_managers/mast_graph_manager.py:68-79 | a pass that finds the end signal unset, refreshes exactly when the step count is a multiple of 200 and acts once in the loop's phase keeps the actor's record: the refresh attempts are exactly the multiples of 200 among the act starts |
| MastGraph.ActorEndedFacts | rl_coach/graph_managers/mast_graph_manager.py:57-79 | when the actor's loop has ended, the budget is used up, or the last poll signalled the end while budget was left; every act followed an unset poll and started below the end count; every act ran in the loop's phase, the phases logged before the loop kept; refreshes were attempted at exactly the act starts that are multiples of 200, all below the end count; the policy id went up by one per granted load and the agent holds the newest one |
| MastGraph.EvaluatorRanStep | rl_coach/graph_managers/mast_graph_manager.py:101-118 | an episode that finds the end signal unset, tries one load at its starting step count and runs in TEST keeps the evaluator's record |
| MastGraph.EvaluatorEndedFacts | rl_coach/graph_managers/mast_graph_manager.py:94-118 | when the evaluator's loop has ended, the budget is used up, or the last poll signalled the end while budget was left; each episode followed an unset poll, tried exactly one load at its starting step count and ran in TEST; after each episode the phase was TRAIN with evaluate_only and TEST otherwise; the entries logged before the loop are kept; the policy id went up by one per granted load |
| MastGraph.AcceptAllBookkeeping | rl_coach/graph_managers/mast_graph_manager.py:199-210 | accepted episodes are appended to memory once each, in order; they add exactly their lengths to the total-steps counter and their number to the episode counter; afterwards the environment-step counter equals the total-steps counter and the episode buffer is complete; accepting nothing changes nothing |
| MastGraph.FetchStep | rl_coach/graph_managers/mast_graph_manager.py:189-210 | consuming a stale episode leaves the counted steps and the bookkeeping unchanged; a fresh one adds its length and is stored |
| MastGraph.FetchOutcome | rl_coach/graph_managers/mast_graph_manager.py:186-187 | where the fetch loop exits, given its exit conditions, is where `Fetch` stops |
| MastGraph.RoundKeepsOrder | rl_coach/graph_managers/mast_graph_manager.py:155-165 | a trainer round keeps the stored policy ids non-decreasing and the published ids consecutive |
| MastGraph.TrainerLogRound | rl_coach/graph_managers/mast_graph_manager.py:155-200 | round i of a trainer log follows the rounds before it: its fetch is `Fetch` of the stream from the cursor the earlier rounds left, for the policy id they left current, and its training, environment-step count and publish follow the rules |
| MastGraph.TrainerLogRounds | rl_coach/graph_managers/mast_graph_manager.py:155-200 | in a trainer log, every round fetched what `Fetch` gives from where the rounds before it left the stream cursor, for the policy id their publications left current; a round that did not run dry trained, the environment-step count follows the total-steps counter once an episode is accepted, and the round published if and only if the total-steps counter after its fetch minus the watermark left by the rounds before it reached the threshold; a round that ran dry published nothing |
| MastGraph.RoundsTrainerLog | rl_coach/graph_managers/mast_graph_manager.py:155-172 | conversely, a sequence of rounds each of which follows those rules given the rounds before it is a trainer log |
| MastGraph.TrainerLogDeterminate | rl_coach/graph_managers/mast_graph_manager.py:155-200 | the stream decides the run: two trainer logs of the same length from the same starting state over the same stream are equal, round by round: the episodes consumed and accepted, running dry, the environment-step counts and every publish |
| MastGraph.RoundFetches | rl_coach/graph_managers/mast_graph_manager.py:186-200 | a round took the episodes right after those the earlier rounds consumed, and accepted exactly the ones among them carrying the policy id current at that round, in order |
| MastGraph.TrainerLogVersions | rl_coach/graph_managers/mast_graph_manager.py:190-200 | every episode a round of a trainer log stored carries the policy id current at that round: the starting id plus the publications of the rounds before it |
| MastGraph.EveryRoundPublishes | rl_coach/graph_managers/mast_graph_manager.py:157-172 | when the fetch target is positive and covers the publish threshold, and the watermark is not ahead of the total-steps counter, every round that trains publishes |
| MastGraph.TrainerRanStep | rl_coach/graph_managers/mast_graph_manager.py:149-172 | a round whose fetch is `Fetch` of the unread stream and whose training step and publish follow the rules extends the trainer's record by that round: the log, the cursor, the counters, the watermark, the stored episodes and the published ids |
| MastGraph.TrainerRanFacts | rl_coach/graph_managers/mast_graph_manager.py:148-210 | after a trainer run, the stream cursor moved by exactly the episodes its rounds consumed; each round stored only episodes carrying the policy id current at that round; memory grows by the episodes of its rounds, in order, with their total length added to the total-steps counter, and the episode buffer is complete once any was stored and unchanged otherwise; the published ids are exactly old id + 1 .. new id; stored policy ids never decrease; at least target × training steps were stored |
| MastGraph.MastGraphManager.constructor | rl_coach/graph_managers/mast_graph_manager.py:37-46 | no publish yet, watermark 0, latest policy id 0, counters at 0 |
| MastGraph.MastGraphManager.Act | rl_coach/graph_managers/mast_graph_manager.py:79 | one acting call: one more act, at least one environment step, run in the current phase |
| MastGraph.MastGraphManager.Train | rl_coach/graph_managers/mast_graph_manager.py:156 | one training update advances the training-step counter by one |
| MastGraph.MastGraphManager.RefreshPolicy | rl_coach/graph_managers/mast_graph_manager.py:71-75 | a load attempt is recorded at the current step count; a successful load raises the latest policy id by exactly one and tags the agent with it; a failed load changes neither |
| MastGraph.MastGraphManager.ActorStep | rl_coach/graph_managers/mast_graph_manager.py:70-79 | a load is attempted if and only if the step count is a multiple of 200, and recorded at that count; the policy id goes up by one per granted load and the store's granted count stays equal to the yes answers among its attempts; then one act runs in the current phase |
| MastGraph.MastGraphManager.ActorLoop | rl_coach/graph_managers/mast_graph_manager.py:61-79 | the loop stops at the end count, or on the end signal with budget left; every act followed a poll that did not signal the end and started below the end count; refreshes were tried at exactly the act starts that are multiples of 200; the policy id went up by one per granted load, the granted loads being the yes answers among the attempts, and the agent holds the newest one |
| MastGraph.MastGraphManager.Actor | rl_coach/graph_managers/mast_graph_manager.py:48-79 | nothing runs without a positive budget; with one, the loop above runs in TRAIN with end count old step count + budget; the phase is restored |
| MastGraph.MastGraphManager.EvaluateEpisode | rl_coach/graph_managers/mast_graph_manager.py:104-118 | one load attempt, recorded at the step count the episode starts at, raising the policy id by one exactly when the store answers yes; one episode, in TEST when evaluate_only; afterwards TRAIN when evaluate_only and the previous phase otherwise |
| MastGraph.MastGraphManager.EvaluateEpisodes | rl_coach/graph_managers/mast_graph_manager.py:94-118 | the loop stops at the end count, or on the end signal with budget left; each episode followed a poll that did not signal the end, tried exactly one load at its starting step count and ran in TEST; the policy id went up by one per yes answer among those loads; after each episode the phase is TRAIN with evaluate_only and TEST otherwise |
| MastGraph.MastGraphManager.Evaluate | rl_coach/graph_managers/mast_graph_manager.py:81-124 | nothing runs without a positive budget; with one, the loop above runs with end count old step count + budget; the phase is restored; the result is exactly the stopping criterion after the loop |
| MastGraph.MastGraphManager.PublishIfDue | rl_coach/graph_managers/mast_graph_manager.py:157-172 | publishes if and only if the total-steps counter minus the watermark reaches the threshold; a publish raises the policy id by one, saves it and moves the watermark to the environment-step count; otherwise none of the three changes |
| MastGraph.MastGraphManager.StoreAccepted | rl_coach/graph_managers/mast_graph_manager.py:199-210 | storing one accepted episode does exactly the bookkeeping of `Accept` |
| MastGraph.MastGraphManager.FetchEpisodes | rl_coach/graph_managers/mast_graph_manager.py:186-210 | the loop consumes exactly what `Fetch` consumes and does the bookkeeping of the episodes `Fetch` accepts; it never touches the latest policy id |
| MastGraph.MastGraphManager.FetchFromWorker | rl_coach/graph_managers/mast_graph_manager.py:174-210 | the fetch loop in the TRAIN phase, with the phase restored afterwards |
| MastGraph.MastGraphManager.TrainRound | rl_coach/graph_managers/mast_graph_manager.py:155-172 | the fetch is the one `Fetch` describes for the round's starting policy id; accepted episodes are stored and counted and move the environment-step count to the total-steps counter; unless it ran dry, exactly one training step, then a publish if and only if the total-steps counter minus the watermark reaches the threshold, raising the id by one, saving it and moving the watermark to the environment-step count |
| MastGraph.MastGraphManager.TrainerLoop | rl_coach/graph_managers/mast_graph_manager.py:148-172 | the loop stops at the training budget, never past it, or when the stream runs dry, then still short of the budget and with the whole stream read; only its last round runs dry; each round fetched what `Fetch` gives from the stream where the earlier rounds left the cursor, for the id then current, trained once unless it ran dry, and published exactly when the total-steps counter minus the watermark reached the threshold; cursor, memory, counters, episode-buffer flag, watermark, policy id and published ids are where those rounds leave them, the flag set once any episode was accepted |
| MastGraph.MastGraphManager.Trainer | rl_coach/graph_managers/mast_graph_manager.py:126-172 | nothing runs without a positive budget; with one, it trains for exactly the budget unless the stream runs dry, in which case it stops short of it with the whole stream read; its rounds read the stream from the cursor on and follow the fetch and publish rules as in the loop above, leaving the episode buffer complete once any episode was accepted; the phase is restored |
| Collaborators.DataStore.EndOfPolicies | rl_coach/graph_managers/mast_graph_manager.py:68 | the k-th poll returns the k-th end-of-run answer |
| Collaborators.DataStore.AttemptLoadPolicy | rl_coach/graph_managers/mast_graph_manager.py:71 | the k-th attempt returns the k-th availability answer; a failed attempt has no other effect |
| Collaborators.GrantedBetween | rl_coach/graph_managers/mast_graph_manager.py:71-72 | the granted loads grow with the attempts, by at most one per attempt; a run of refused attempts grants nothing and a run of accepted ones grants one each |
| Collaborators.DataStore.NextEpisode | rl_coach/graph_managers/mast_graph_manager.py:188 | delivers the stream's episodes in order, or nothing once the stream is exhausted |
| Collaborators.DataStore.SavePolicy | rl_coach/graph_managers/mast_graph_manager.py:165 | appends the saved version to the published sequence |

## Left out

- The shared store (`RedisDataStore` and the memory backend's subscription) is modelled by its answers. A blocking call that would never return is modelled as a `blocked` result: when the stream runs dry, `FetchEpisodes` and `Trainer` stop and report it. Nothing past a call that never returns is modelled.
- Network transport, concurrency between the roles and the store's own consistency are not modelled. Each role is modelled as one sequential process.
- The agent's `act`, `train`, `sync`, `should_stop`, `flush_finished` and `occasionally_save_checkpoint` live in base classes that are not part of this model.
  - `act` consumes `1 + extraSteps(k)` environment steps, at least one, as the loop's comments state.
  - `train` is assumed to add exactly one to the training-step counter.
  - `should_stop` is an answer given as data.
  - `sync`, `flush_finished` and `occasionally_save_checkpoint` are omitted.
- `phase_context` is modelled as setting the phase and restoring the previous one on exit. `reset_internal_state`, `verify_graph_was_created`, `setup_memory_backend`, `_create_graph` and `trainer_specific_logging_updates` are omitted. The last one only writes NaN reward fields.
- Logging (`screen`, the `OrderedDict` log records) is omitted.
- The `hasattr(self, 'memory_backend')` guard in `fetch_from_worker` is assumed true.
- The unit-typed step counters (`EnvironmentSteps`, `TrainingSteps`) are plain integers. The step-counter type is not part of this model.
- `Collaborators.DataStore.AttemptLoadPolicy`: only the answer is modelled, not the weights it loads.
- `Collaborators.DataStore.SavePolicy`: only the version number is recorded, not the weights saved.
- `firstPolicyPublish` is initialised as in the constructor and is never read or written elsewhere, as in the source.
- `evaluateOnly` stands for `evaluate_only is not None`. The value of `evaluate_only` is not used by the loop.
- The actor's episode publishing happens inside the agent's `act` and is not part of this model.
- `MastGraph.MastGraphManager.Act`: every acting call consumes at least one environment step, as the comment at lines 63-65 of `rl_coach/graph_managers/mast_graph_manager.py` states. The agent skipping an act altogether, which line 66 allows, is not modelled. The actor's and the evaluator's loops terminate only because each call consumes a step: an agent that skipped acting forever would keep those loops running.
- `MastGraph.MastGraphManager.PublishIfDue`: states the state after the publish, not the order of its three effects (increment, save, watermark).
- The policy-check interval of the actor is the fixed constant 200, as in the code, not a configurable value. A refresh is tried at exactly the act starts that are multiples of 200. An act that consumes several steps can step over a multiple, so neither the source nor the model tries one refresh per 200-step window.
- `MastGraph.MastGraphManager.Evaluate`: the stopping decision is the answer after the last acting call; what `should_stop` computes from the agent is not modelled.
- `rl_coach/environments/army_match/army_environment.py` and `rl_coach/environments/army_match/env_framework/agent/cetc28/cetc28_blue.py` are stubs with no logic and are not part of this model.
