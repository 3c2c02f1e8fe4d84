/** Episodes as the trainer receives them from the actors, and the
    specification of the trainer's fetch loop as functions over the stream of
    incoming episodes. */
module Episodes {

  /** A complete episode published by an actor: the actor that produced it
      (`taskId`), its identifier, the version of the policy that produced it,
      and its length in environment steps. */
  datatype Episode = Episode(taskId: int, episodeId: int, policyId: int, length: nat)

  /** The episodes of `s` that were produced by policy version `latest`, in
      stream order: exactly the ones the trainer keeps. */
  function OnPolicy(s: seq<Episode>, latest: int): (r: seq<Episode>)
    ensures |r| <= |s|
  {
    if s == [] then []
    else (if s[0].policyId == latest then [s[0]] else []) + OnPolicy(s[1..], latest)
  }

  /** Every kept episode carries the trainer's current policy version. */
  lemma {:induction false} OnPolicyAllLatest(s: seq<Episode>, latest: int)
    ensures forall i :: 0 <= i < |OnPolicy(s, latest)| ==> OnPolicy(s, latest)[i].policyId == latest
  {
    if s != [] {
      OnPolicyAllLatest(s[1..], latest);
    }
  }

  /** An episode is kept exactly when it occurs in the stream and carries the
      trainer's current policy version: stale episodes are never kept. */
  lemma {:induction false} OnPolicyMember(s: seq<Episode>, latest: int, e: Episode)
    ensures e in OnPolicy(s, latest) <==> e in s && e.policyId == latest
  {
    if s != [] {
      OnPolicyMember(s[1..], latest, e);
      assert s == [s[0]] + s[1..];
    }
  }

  /** Sum of the episode lengths of `s`, in environment steps. */
  function TotalLength(s: seq<Episode>): nat
  {
    if s == [] then 0 else s[0].length + TotalLength(s[1..])
  }

  lemma {:induction false} OnPolicyAppend(a: seq<Episode>, b: seq<Episode>, latest: int)
    ensures OnPolicy(a + b, latest) == OnPolicy(a, latest) + OnPolicy(b, latest)
  {
    if a == [] {
      assert a + b == b;
    } else {
      var head := if a[0].policyId == latest then [a[0]] else [];
      assert (a + b)[0] == a[0];
      assert (a + b)[1..] == a[1..] + b;
      assert OnPolicy(a + b, latest) == head + OnPolicy(a[1..] + b, latest);
      OnPolicyAppend(a[1..], b, latest);
      assert OnPolicy(a, latest) == head + OnPolicy(a[1..], latest);
      assert head + (OnPolicy(a[1..], latest) + OnPolicy(b, latest))
             == (head + OnPolicy(a[1..], latest)) + OnPolicy(b, latest);
    }
  }

  lemma {:induction false} TotalLengthAppend(a: seq<Episode>, b: seq<Episode>)
    ensures TotalLength(a + b) == TotalLength(a) + TotalLength(b)
  {
    if a == [] {
      assert a + b == b;
    } else {
      assert (a + b)[0] == a[0];
      assert (a + b)[1..] == a[1..] + b;
      TotalLengthAppend(a[1..], b);
    }
  }

  /** What one run of the fetch loop does with a stream: how many episodes it
      takes from the stream, which of them it stores, and whether it ran out of
      stream before reaching its target (the real subscription would then
      block waiting for more). */
  datatype FetchResult = FetchResult(consumed: nat, accepted: seq<Episode>, blocked: bool)

  /** The fetch result of first taking the episodes of `prefix` and then
      going on as `r`. */
  function Extend(prefix: seq<Episode>, latest: int, r: FetchResult): FetchResult
  {
    FetchResult(|prefix| + r.consumed, OnPolicy(prefix, latest) + r.accepted, r.blocked)
  }

  /** The fetch loop on stream `s` for a trainer whose current policy is
      `latest`, while `need` more environment steps are wanted: stale episodes
      are skipped, accepted ones reduce what is still needed by their length. */
  function Fetch(s: seq<Episode>, latest: int, need: int): (r: FetchResult)
    ensures r.consumed <= |s|
    ensures r.blocked ==> r.consumed == |s|
    decreases |s|
  {
    if need <= 0 then FetchResult(0, [], false)
    else if s == [] then FetchResult(0, [], true)
    else
      var e := s[0];
      var rest := Fetch(s[1..], latest, if e.policyId == latest then need - e.length else need);
      Extend([e], latest, rest)
  }

  /** One episode of the stream: a stale one is dropped, a fresh one kept. */
  lemma OnPolicySingle(e: Episode, latest: int)
    ensures OnPolicy([e], latest) == if e.policyId == latest then [e] else []
    ensures TotalLength(OnPolicy([e], latest)) == if e.policyId == latest then e.length else 0
  {
    assert [e][1..] == [];
    assert TotalLength([e]) == e.length + TotalLength([]);
  }

  /** The fetch stores exactly the on-policy episodes among those it took
      from the stream, in order; no stale episode is stored. */
  lemma {:induction false} FetchAccepted(s: seq<Episode>, latest: int, need: int)
    ensures Fetch(s, latest, need).accepted == OnPolicy(s[..Fetch(s, latest, need).consumed], latest)
    decreases |s|
  {
    if need <= 0 || s == [] {
      assert s[..0] == [];
    } else {
      var e := s[0];
      var need' := if e.policyId == latest then need - e.length else need;
      var rest := Fetch(s[1..], latest, need');
      FetchAccepted(s[1..], latest, need');
      assert s[..1 + rest.consumed] == [e] + s[1..][..rest.consumed];
      OnPolicyAppend([e], s[1..][..rest.consumed], latest);
    }
  }

  /** The fetch ends normally exactly when the accepted lengths add up to at
      least the target; otherwise it ran out of stream. */
  lemma {:induction false} FetchExit(s: seq<Episode>, latest: int, need: int)
    ensures Fetch(s, latest, need).blocked <==> TotalLength(Fetch(s, latest, need).accepted) < need
    decreases |s|
  {
    if need > 0 && s != [] {
      var e := s[0];
      var need' := if e.policyId == latest then need - e.length else need;
      var rest := Fetch(s[1..], latest, need');
      FetchExit(s[1..], latest, need');
      OnPolicySingle(e, latest);
      TotalLengthAppend(OnPolicy([e], latest), rest.accepted);
    }
  }

  /** The fetch does not stop early: before its last episode, the accepted
      lengths were still short of the target. */
  lemma {:induction false} FetchMinimal(s: seq<Episode>, latest: int, need: int)
    ensures forall k :: 0 <= k < Fetch(s, latest, need).consumed ==>
              TotalLength(OnPolicy(s[..k], latest)) < need
    decreases |s|
  {
    if need > 0 && s != [] {
      var e := s[0];
      var need' := if e.policyId == latest then need - e.length else need;
      var rest := Fetch(s[1..], latest, need');
      FetchMinimal(s[1..], latest, need');
      OnPolicySingle(e, latest);
      forall k | 0 <= k < Fetch(s, latest, need).consumed
        ensures TotalLength(OnPolicy(s[..k], latest)) < need
      {
        if k == 0 {
          assert s[..0] == [];
        } else {
          assert s[..k] == [e] + s[1..][..k - 1];
          OnPolicyAppend([e], s[1..][..k - 1], latest);
          TotalLengthAppend(OnPolicy([e], latest), OnPolicy(s[1..][..k - 1], latest));
        }
      }
    }
  }

  /** A fetch with a positive target that does not block ends on an accepted
      episode: stale episodes never end it. */
  lemma {:induction false} FetchLastAccepted(s: seq<Episode>, latest: int, need: int)
    requires need > 0 && !Fetch(s, latest, need).blocked
    ensures Fetch(s, latest, need).consumed > 0
    ensures s[Fetch(s, latest, need).consumed - 1].policyId == latest
    decreases |s|
  {
    var e := s[0];
    var need' := if e.policyId == latest then need - e.length else need;
    var rest := Fetch(s[1..], latest, need');
    if rest.consumed == 0 {
      if need' > 0 {
        FetchLastAccepted(s[1..], latest, need');
      }
    } else {
      if need' > 0 {
        FetchLastAccepted(s[1..], latest, need');
      }
      assert s[1 + rest.consumed - 1] == s[1..][rest.consumed - 1];
    }
  }

  /** A fetch that does not block collects at least its target, and
      overshoots it by less than the length of the last accepted episode. */
  lemma FetchOvershoot(s: seq<Episode>, latest: int, need: int)
    requires need > 0 && !Fetch(s, latest, need).blocked
    ensures TotalLength(Fetch(s, latest, need).accepted) >= need
    ensures TotalLength(Fetch(s, latest, need).accepted)
              - s[Fetch(s, latest, need).consumed - 1].length < need
  {
    var r := Fetch(s, latest, need);
    FetchExit(s, latest, need);
    FetchAccepted(s, latest, need);
    FetchLastAccepted(s, latest, need);
    FetchMinimal(s, latest, need);
    var c := r.consumed;
    var last := s[c - 1];
    assert s[..c] == s[..c - 1] + [last];
    OnPolicyAppend(s[..c - 1], [last], latest);
    OnPolicySingle(last, latest);
    TotalLengthAppend(OnPolicy(s[..c - 1], latest), [last]);
    assert TotalLength([last]) == last.length + TotalLength([]);
  }

  /** What a fetch stores all carries the trainer's current policy version,
      and a fetch that does not block stores at least its target. */
  lemma FetchedEpisodes(s: seq<Episode>, latest: int, need: int)
    ensures forall i :: 0 <= i < |Fetch(s, latest, need).accepted| ==>
              Fetch(s, latest, need).accepted[i].policyId == latest
    ensures !Fetch(s, latest, need).blocked ==> TotalLength(Fetch(s, latest, need).accepted) >= need
  {
    FetchAccepted(s, latest, need);
    FetchExit(s, latest, need);
    OnPolicyAllLatest(s[..Fetch(s, latest, need).consumed], latest);
  }

  /** When the stream holds enough on-policy steps, the fetch never blocks. */
  lemma FetchEnough(s: seq<Episode>, latest: int, need: int)
    requires TotalLength(OnPolicy(s, latest)) >= need
    ensures !Fetch(s, latest, need).blocked
  {
    FetchExit(s, latest, need);
    FetchAccepted(s, latest, need);
    assert s[..|s|] == s;
  }

  /** The kept steps of a stream that starts with `e`. */
  lemma OnPolicyCons(e: Episode, t: seq<Episode>, latest: int)
    ensures OnPolicy([e] + t, latest) == OnPolicy([e], latest) + OnPolicy(t, latest)
    ensures TotalLength(OnPolicy([e] + t, latest))
            == (if e.policyId == latest then e.length else 0) + TotalLength(OnPolicy(t, latest))
  {
    OnPolicySingle(e, latest);
    OnPolicyAppend([e], t, latest);
    TotalLengthAppend(OnPolicy([e], latest), OnPolicy(t, latest));
  }

  /** A non-empty prefix of a stream is its head followed by a prefix of its
      tail. */
  lemma PrefixCons(s: seq<Episode>, k: nat)
    requires 0 < k <= |s|
    ensures s[..k] == [s[0]] + s[1..][..k - 1]
  {
  }

  /** Characterisation of a fetch that ends normally: if the on-policy
      episodes among the first `n` of the stream reach the target and those
      among the first `n - 1` do not, the fetch takes exactly `n` episodes and
      stores the on-policy ones among them. */
  lemma {:induction false} FetchStopsAt(s: seq<Episode>, n: nat, latest: int, need: int)
    requires n <= |s|
    requires n > 0 ==> TotalLength(OnPolicy(s[..n - 1], latest)) < need
    requires TotalLength(OnPolicy(s[..n], latest)) >= need
    ensures Fetch(s, latest, need) == FetchResult(n, OnPolicy(s[..n], latest), false)
    decreases |s|
  {
    if need <= 0 {
      assert n == 0;
      assert s[..0] == [];
    } else {
      assert n > 0 by {
        assert s[..0] == [];
      }
      var e, t := s[0], s[1..];
      var need' := if e.policyId == latest then need - e.length else need;
      PrefixCons(s, n);
      OnPolicyCons(e, t[..n - 1], latest);
      if n > 1 {
        PrefixCons(s, n - 1);
        OnPolicyCons(e, t[..n - 2], latest);
      }
      FetchStopsAt(t, n - 1, latest, need');
      assert Fetch(s, latest, need) == Extend([e], latest, Fetch(t, latest, need'));
    }
  }

  /** Characterisation of a fetch that blocks: when all the on-policy
      episodes of the stream fall short of the target, the fetch takes the
      whole stream, stores all of its on-policy episodes and then waits. */
  lemma {:induction false} FetchRunsDry(s: seq<Episode>, latest: int, need: int)
    requires TotalLength(OnPolicy(s, latest)) < need
    ensures Fetch(s, latest, need) == FetchResult(|s|, OnPolicy(s, latest), true)
    decreases |s|
  {
    if s != [] {
      var e := s[0];
      var need' := if e.policyId == latest then need - e.length else need;
      assert s == [e] + s[1..];
      OnPolicyCons(e, s[1..], latest);
      FetchRunsDry(s[1..], latest, need');
    }
  }

  /** Appending one more episode to what was taken from the stream. */
  lemma OnPolicySnoc(taken: seq<Episode>, e: Episode, latest: int)
    ensures OnPolicy(taken + [e], latest) == OnPolicy(taken, latest) + OnPolicy([e], latest)
    ensures TotalLength(OnPolicy(taken + [e], latest))
            == TotalLength(OnPolicy(taken, latest)) + (if e.policyId == latest then e.length else 0)
  {
    OnPolicyAppend(taken, [e], latest);
    OnPolicySingle(e, latest);
    TotalLengthAppend(OnPolicy(taken, latest), OnPolicy([e], latest));
  }

  /** Three episodes arrive for a trainer at policy 3 with a target of 200
      steps: the stale middle one is skipped, and 80 + 140 = 220 steps are
      counted, more than the target. */
  lemma FetchExample()
    ensures var s := [Episode(1, 1, 3, 80), Episode(2, 1, 2, 150), Episode(1, 2, 3, 140)];
            var r := Fetch(s, 3, 200);
            r.consumed == 3 && !r.blocked
            && r.accepted == [Episode(1, 1, 3, 80), Episode(1, 2, 3, 140)]
            && TotalLength(r.accepted) == 220
  {
    var s := [Episode(1, 1, 3, 80), Episode(2, 1, 2, 150), Episode(1, 2, 3, 140)];
    assert s[1..] == [Episode(2, 1, 2, 150), Episode(1, 2, 3, 140)];
    assert s[1..][1..] == [Episode(1, 2, 3, 140)];
    assert s[1..][1..][1..] == [];
    OnPolicySingle(s[0], 3);
    OnPolicySingle(s[1], 3);
    OnPolicySingle(s[2], 3);
    var r := [Episode(1, 1, 3, 80), Episode(1, 2, 3, 140)];
    assert r[1..] == [Episode(1, 2, 3, 140)];
    assert r[1..][1..] == [];
  }
}
