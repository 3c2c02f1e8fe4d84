/** The collaborators the graph manager talks to but does not own: the shared
    data store (a publish/subscribe service in the running system) and the
    agent. Their behaviour is given as data: the answers the store will give,
    in the order it is asked, and the number of environment steps each of the
    agent's acting calls consumes. */
module Collaborators {
  import opened Episodes

  datatype Option<T> = None | Some(value: T)

  /** How many of the first `n` load attempts are granted, when attempt k
      gets the answer `answers(k)`. */
  function Granted(answers: nat -> bool, n: nat): (r: nat)
    ensures r <= n
  {
    if n == 0 then 0 else Granted(answers, n - 1) + (if answers(n - 1) then 1 else 0)
  }

  /** The attempts numbered `a` up to (not including) `b` grant at most one
      load each; if all of them are refused they grant none, and if all of
      them are granted they grant one each. */
  lemma {:induction false} GrantedBetween(answers: nat -> bool, a: nat, b: nat)
    requires a <= b
    ensures Granted(answers, a) <= Granted(answers, b) <= Granted(answers, a) + (b - a)
    ensures (forall k :: a <= k < b ==> !answers(k)) ==> Granted(answers, b) == Granted(answers, a)
    ensures (forall k :: a <= k < b ==> answers(k)) ==> Granted(answers, b) == Granted(answers, a) + (b - a)
    decreases b - a
  {
    if a < b {
      GrantedBetween(answers, a, b - 1);
    }
  }

  /** The shared store, seen from one role. `endSignal(k)` is the answer to
      the k-th end-of-run poll, `loadAvailable(k)` whether the k-th attempt to
      load a policy finds a newer one, and `episodes` the episodes the
      subscription delivers, in order. */
  class DataStore {
    const endSignal: nat -> bool
    const loadAvailable: nat -> bool
    const episodes: seq<Episode>
    var polls: nat
    var loadCalls: nat
    ghost var loadsGranted: nat
    var cursor: nat
    /** The policy versions saved so far, in the order they were saved. */
    ghost var published: seq<int>

    /** The subscription cursor stays within the stream, and the loads
        granted so far are exactly the attempts whose answer was yes. */
    ghost predicate Valid()
      reads this`cursor, this`loadsGranted, this`loadCalls
    {
      cursor <= |episodes| && loadsGranted == Granted(loadAvailable, loadCalls)
    }

    constructor (endSignal: nat -> bool, loadAvailable: nat -> bool, episodes: seq<Episode>)
      ensures Valid()
      ensures this.endSignal == endSignal && this.loadAvailable == loadAvailable
      ensures this.episodes == episodes
      ensures polls == 0 && loadCalls == 0 && loadsGranted == 0 && cursor == 0 && published == []
    {
      this.endSignal := endSignal;
      this.loadAvailable := loadAvailable;
      this.episodes := episodes;
      polls, loadCalls, loadsGranted, cursor := 0, 0, 0, 0;
      published := [];
    }

    /** Polls the end-of-run signal, without blocking. */
    method EndOfPolicies() returns (ended: bool)
      modifies this`polls
      ensures polls == old(polls) + 1
      ensures ended == endSignal(old(polls))
    {
      ended := endSignal(polls);
      polls := polls + 1;
    }

    /** Tries to load a newer policy, without blocking; a failed attempt has
        no other effect than being counted. */
    method AttemptLoadPolicy() returns (loaded: bool)
      requires Valid()
      modifies this`loadCalls, this`loadsGranted
      ensures Valid()
      ensures loadCalls == old(loadCalls) + 1
      ensures loaded == loadAvailable(old(loadCalls))
      ensures loadsGranted == old(loadsGranted) + (if loaded then 1 else 0)
    {
      loaded := loadAvailable(loadCalls);
      loadCalls := loadCalls + 1;
      if loaded {
        loadsGranted := loadsGranted + 1;
      }
    }

    /** The next whole episode of the subscription. `None` stands for a
        subscription with nothing left to deliver, where the real call blocks
        and never returns. */
    method NextEpisode() returns (next: Option<Episode>)
      requires Valid()
      modifies this`cursor
      ensures Valid()
      ensures if old(cursor) < |episodes|
              then next == Some(episodes[old(cursor)]) && cursor == old(cursor) + 1
              else next == None && cursor == old(cursor)
    {
      if cursor < |episodes| {
        next := Some(episodes[cursor]);
        cursor := cursor + 1;
      } else {
        next := None;
      }
    }

    /** Publishes the policy with version `policyId`. */
    method SavePolicy(policyId: int)
      modifies this`published
      ensures published == old(published) + [policyId]
    {
      published := published + [policyId];
    }
  }

  /** The fields of the agent that the graph manager reads and writes.
      `extraSteps(k)` is how many environment steps beyond the first the
      agent's k-th acting call consumes; `successAfter(k)` is whether its
      success-rate criterion holds after k acting calls. */
  class Agent {
    var policyId: int
    var totalStepsCounter: nat
    var currentEpisode: nat
    var episodeBufferComplete: bool
    var memory: seq<Episode>
    var acts: nat
    const extraSteps: nat -> nat
    const successAfter: nat -> bool

    constructor (extraSteps: nat -> nat, successAfter: nat -> bool)
      ensures this.extraSteps == extraSteps && this.successAfter == successAfter
      ensures policyId == 0 && totalStepsCounter == 0 && currentEpisode == 0
      ensures !episodeBufferComplete && memory == [] && acts == 0
    {
      this.extraSteps := extraSteps;
      this.successAfter := successAfter;
      policyId, totalStepsCounter, currentEpisode := 0, 0, 0;
      episodeBufferComplete, memory, acts := false, [], 0;
    }
  }
}
