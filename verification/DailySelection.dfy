// The greedy daily selection of Reddit signals and why it is optimal.
//
// A choice among `signals` is a mask `keep` of the same length.  Indices `n`
// restrict a mask to its first `n` positions.
module DailySelection {
  import opened Common

  datatype Suggestion = Ignore | Value | ValuePlusMention

  datatype Intent = Direct | Implicit | Trend

  datatype Signal = Signal(
    subreddit: string,
    intent: Intent,
    score: int,
    suggestion: Suggestion,
    mentionUsed: bool,
    pending: bool,
    performance: int,
    createdAt: int)

  // At most this many selected signals may share a subreddit.
  const PER_SUBREDDIT := 2

  // ----- Choices -----

  ghost function Kept(keep: seq<bool>, n: nat): (r: nat)
    requires n <= |keep|
    ensures r <= n
  {
    if n == 0 then 0 else Kept(keep, n - 1) + if keep[n - 1] then 1 else 0
  }

  /** How many of the first `n` signals are kept and come from `subreddits`. */
  ghost function KeptIn(signals: seq<Signal>, keep: seq<bool>, n: nat, subreddits: set<string>): nat
    requires n <= |keep| && n <= |signals|
  {
    if n == 0 then 0
    else KeptIn(signals, keep, n - 1, subreddits)
         + if keep[n - 1] && signals[n - 1].subreddit in subreddits then 1 else 0
  }

  ghost function Score(signals: seq<Signal>, keep: seq<bool>, n: nat): int
    requires n <= |keep| && n <= |signals|
  {
    if n == 0 then 0
    else Score(signals, keep, n - 1) + if keep[n - 1] then signals[n - 1].score else 0
  }

  ghost function Pick(signals: seq<Signal>, keep: seq<bool>, n: nat): seq<Signal>
    requires n <= |keep| && n <= |signals|
  {
    if n == 0 then []
    else Pick(signals, keep, n - 1) + if keep[n - 1] then [signals[n - 1]] else []
  }

  function TotalScore(signals: seq<Signal>): int {
    if signals == [] then 0 else TotalScore(signals[..|signals| - 1]) + signals[|signals| - 1].score
  }

  /** The rules of the daily plan: nothing ignored, a cap per subreddit, a cap overall. */
  ghost predicate Admissible(signals: seq<Signal>, keep: seq<bool>, limit: int) {
    && |keep| == |signals|
    && (forall i | 0 <= i < |keep| :: keep[i] ==> signals[i].suggestion != Ignore)
    && (forall x: string :: KeptIn(signals, keep, |keep|, {x}) <= PER_SUBREDDIT)
    && Kept(keep, |keep|) <= limit
  }

  ghost predicate RankedByScore(signals: seq<Signal>) {
    forall i, j | 0 <= i < j < |signals| :: signals[i].score >= signals[j].score
  }

  // ----- The greedy choice -----

  ghost predicate Takes(signals: seq<Signal>, keep: seq<bool>, i: nat, limit: int)
    requires i <= |keep| && i < |signals|
  {
    && signals[i].suggestion != Ignore
    && KeptIn(signals, keep, i, {signals[i].subreddit}) < PER_SUBREDDIT
    && Kept(keep, i) < limit
  }

  ghost function Greedy(signals: seq<Signal>, limit: int, n: nat): (keep: seq<bool>)
    requires n <= |signals|
    ensures |keep| == n
  {
    if n == 0 then []
    else
      var keep := Greedy(signals, limit, n - 1);
      keep + [Takes(signals, keep, n - 1, limit)]
  }

  ghost function GreedyChoice(signals: seq<Signal>, limit: int): seq<bool> {
    Greedy(signals, limit, |signals|)
  }

  // ----- The loop of get_daily_top_actions -----

  ghost predicate Counts(counter: map<string, int>, signals: seq<Signal>, keep: seq<bool>, n: nat)
    requires n <= |keep| && n <= |signals|
  {
    forall x: string :: (if x in counter then counter[x] else 0) == KeptIn(signals, keep, n, {x})
  }

  /** The source appends before it tests the limit, so a limit below one acts as one. */
  method GetDailyTopActions(signals: seq<Signal>, limit: int) returns (selected: seq<Signal>)
    ensures selected == Pick(signals, GreedyChoice(signals, Max(limit, 1)), |signals|)
    ensures |selected| <= Max(limit, 1)
    ensures RankedByScore(signals) && (forall s | s in signals :: s.score >= 0) ==>
              forall other | Admissible(signals, other, limit) ::
                Score(signals, other, |signals|) <= TotalScore(selected)
  {
    selected := SelectGreedily(signals, limit);
    GreedyBeatsAll(signals, limit);
  }

  method SelectGreedily(signals: seq<Signal>, limit: int) returns (selected: seq<Signal>)
    ensures selected == Pick(signals, GreedyChoice(signals, Max(limit, 1)), |signals|)
  {
    selected := [];
    var counter: map<string, int> := map[];
    ghost var top := Max(limit, 1);
    var i := 0;
    while i < |signals|
      invariant 0 <= i <= |signals|
      invariant selected == Pick(signals, Greedy(signals, top, i), i)
      invariant |selected| == Kept(Greedy(signals, top, i), i) < top
      invariant Counts(counter, signals, Greedy(signals, top, i), i)
    {
      var signal := signals[i];
      ghost var keep := Greedy(signals, top, i);
      GreedyExtends(signals, top, i);
      i := i + 1;
      if signal.suggestion == Ignore {
        continue;
      }
      var current := if signal.subreddit in counter then counter[signal.subreddit] else 0;
      if current >= PER_SUBREDDIT {
        continue;
      }
      selected := selected + [signal];
      counter := counter[signal.subreddit := current + 1];
      if |selected| >= Max(limit, 0) {
        break;
      }
    }
    GreedyStaysFull(signals, top, i, |signals|);
  }

  // ----- Facts about masks -----

  lemma {:induction false} PrefixAgrees(signals: seq<Signal>, a: seq<bool>, b: seq<bool>, n: nat)
    requires n <= |a| && n <= |b| && n <= |signals|
    requires forall i | 0 <= i < n :: a[i] == b[i]
    ensures Kept(a, n) == Kept(b, n) && Score(signals, a, n) == Score(signals, b, n)
    ensures Pick(signals, a, n) == Pick(signals, b, n)
    ensures forall xs: set<string> :: KeptIn(signals, a, n, xs) == KeptIn(signals, b, n, xs)
  {
    if n > 0 {
      PrefixAgrees(signals, a, b, n - 1);
    }
  }

  /** One more position: every count of the longer greedy mask in terms of the shorter one. */
  lemma GreedyExtends(signals: seq<Signal>, limit: int, i: nat)
    requires i < |signals|
    ensures var keep, longer := Greedy(signals, limit, i), Greedy(signals, limit, i + 1);
            var takes := Takes(signals, keep, i, limit);
            && longer[i] == takes
            && Kept(longer, i) == Kept(keep, i)
            && Kept(longer, i + 1) == Kept(keep, i) + (if takes then 1 else 0)
            && Pick(signals, longer, i + 1) == Pick(signals, keep, i) + (if takes then [signals[i]] else [])
            && Score(signals, longer, i + 1) == Score(signals, keep, i) + (if takes then signals[i].score else 0)
            && (forall xs: set<string> :: KeptIn(signals, longer, i + 1, xs)
                  == KeptIn(signals, keep, i, xs) + (if takes && signals[i].subreddit in xs then 1 else 0))
  {
    PrefixAgrees(signals, Greedy(signals, limit, i), Greedy(signals, limit, i + 1), i);
  }

  lemma {:induction false} GreedyStaysFull(signals: seq<Signal>, limit: int, i: nat, n: nat)
    requires i <= n <= |signals|
    requires i == n || Kept(Greedy(signals, limit, i), i) >= limit
    ensures Pick(signals, Greedy(signals, limit, n), n) == Pick(signals, Greedy(signals, limit, i), i)
    ensures Kept(Greedy(signals, limit, n), n) == Kept(Greedy(signals, limit, i), i)
  {
    if i < n {
      GreedyStaysFull(signals, limit, i, n - 1);
      GreedyExtends(signals, limit, n - 1);
    }
  }

  lemma {:induction false} KeptMonotone(signals: seq<Signal>, keep: seq<bool>, n: nat, m: nat, xs: set<string>)
    requires n <= m <= |keep| && m <= |signals|
    ensures KeptIn(signals, keep, n, xs) <= KeptIn(signals, keep, m, xs)
    ensures Kept(keep, n) <= Kept(keep, m)
  {
    if n < m {
      KeptMonotone(signals, keep, n, m - 1, xs);
    }
  }

  lemma {:induction false} KeptInSplits(signals: seq<Signal>, keep: seq<bool>, n: nat, xs: set<string>, x: string)
    requires n <= |keep| && n <= |signals| && x in xs
    ensures KeptIn(signals, keep, n, xs)
         == KeptIn(signals, keep, n, xs - {x}) + KeptIn(signals, keep, n, {x})
  {
    if n > 0 {
      KeptInSplits(signals, keep, n - 1, xs, x);
    }
  }

  lemma {:induction false} KeptInEverything(signals: seq<Signal>, keep: seq<bool>, n: nat, xs: set<string>)
    requires n <= |keep| && n <= |signals|
    requires forall i | 0 <= i < n :: signals[i].subreddit in xs
    ensures KeptIn(signals, keep, n, xs) == Kept(keep, n)
  {
    if n > 0 {
      KeptInEverything(signals, keep, n - 1, xs);
    }
  }

  lemma {:induction false} KeptInNothing(signals: seq<Signal>, keep: seq<bool>, n: nat)
    requires n <= |keep| && n <= |signals|
    ensures KeptIn(signals, keep, n, {}) == 0
  {
    if n > 0 {
      KeptInNothing(signals, keep, n - 1);
    }
  }

  /** Keeping at least as many from each subreddit means keeping at least as many in all. */
  lemma {:induction false} DominatesIn(signals: seq<Signal>, a: seq<bool>, b: seq<bool>, n: nat, xs: set<string>)
    requires n <= |a| && n <= |b| && n <= |signals|
    requires forall x: string :: KeptIn(signals, a, n, {x}) >= KeptIn(signals, b, n, {x})
    ensures KeptIn(signals, a, n, xs) >= KeptIn(signals, b, n, xs)
    decreases xs
  {
    if xs == {} {
      KeptInNothing(signals, b, n);
    } else {
      var x :| x in xs;
      KeptInSplits(signals, a, n, xs, x);
      KeptInSplits(signals, b, n, xs, x);
      DominatesIn(signals, a, b, n, xs - {x});
    }
  }

  // ----- The greedy choice obeys the rules and beats every other choice -----

  lemma {:induction false} GreedyObeys(signals: seq<Signal>, limit: int, n: nat)
    requires n <= |signals| && limit >= 0
    ensures Kept(Greedy(signals, limit, n), n) <= limit
    ensures forall x: string :: KeptIn(signals, Greedy(signals, limit, n), n, {x}) <= PER_SUBREDDIT
    ensures forall i | 0 <= i < n :: Greedy(signals, limit, n)[i] ==> signals[i].suggestion != Ignore
  {
    if n > 0 {
      GreedyObeys(signals, limit, n - 1);
      GreedyExtends(signals, limit, n - 1);
    }
  }

  lemma GreedyAdmissible(signals: seq<Signal>, limit: int)
    requires limit >= 0
    ensures Admissible(signals, GreedyChoice(signals, limit), limit)
    ensures |Pick(signals, GreedyChoice(signals, limit), |signals|)| <= limit
  {
    GreedyObeys(signals, limit, |signals|);
    PickScores(signals, GreedyChoice(signals, limit), |signals|);
  }

  lemma {:induction false} PickScores(signals: seq<Signal>, keep: seq<bool>, n: nat)
    requires n <= |keep| && n <= |signals|
    ensures TotalScore(Pick(signals, keep, n)) == Score(signals, keep, n)
    ensures |Pick(signals, keep, n)| == Kept(keep, n)
  {
    if n > 0 {
      PickScores(signals, keep, n - 1);
      var shorter, all := Pick(signals, keep, n - 1), Pick(signals, keep, n);
      if keep[n - 1] {
        assert all[..|all| - 1] == shorter;
      } else {
        assert all == shorter;
      }
    }
  }

  /** Until the limit is reached, greedy has taken at least as many from every subreddit. */
  lemma {:induction false} GreedyLeadsInSubreddit(signals: seq<Signal>, other: seq<bool>, limit: int, n: nat, x: string)
    requires Admissible(signals, other, limit) && n <= |signals|
    requires Kept(Greedy(signals, limit, n), n) < limit
    ensures KeptIn(signals, Greedy(signals, limit, n), n, {x}) >= KeptIn(signals, other, n, {x})
  {
    if n > 0 {
      GreedyExtends(signals, limit, n - 1);
      GreedyLeadsInSubreddit(signals, other, limit, n - 1, x);
      KeptMonotone(signals, other, n, |signals|, {x});
    }
  }

  /** On every prefix of the list, greedy has picked at least as many as any admissible choice. */
  lemma GreedyLeads(signals: seq<Signal>, other: seq<bool>, limit: int, n: nat)
    requires Admissible(signals, other, limit) && n <= |signals|
    ensures Kept(Greedy(signals, limit, n), n) >= Kept(other, n)
  {
    var greedy := Greedy(signals, limit, n);
    KeptMonotone(signals, other, n, |signals|, {});
    if Kept(greedy, n) < limit {
      forall x: string ensures KeptIn(signals, greedy, n, {x}) >= KeptIn(signals, other, n, {x}) {
        GreedyLeadsInSubreddit(signals, other, limit, n, x);
      }
      var xs := set i | 0 <= i < n :: signals[i].subreddit;
      DominatesIn(signals, greedy, other, n, xs);
      KeptInEverything(signals, greedy, n, xs);
      KeptInEverything(signals, other, n, xs);
    }
  }

  /** Abel summation: leading on every prefix of a descending list leads in total. */
  lemma {:induction false} LeadIsWorth(signals: seq<Signal>, other: seq<bool>, limit: int, n: nat, floor: int)
    requires Admissible(signals, other, limit) && n <= |signals| && RankedByScore(signals)
    requires 0 <= floor && (n > 0 ==> floor <= signals[n - 1].score)
    ensures Score(signals, Greedy(signals, limit, n), n) - Score(signals, other, n)
         >= floor * (Kept(Greedy(signals, limit, n), n) - Kept(other, n))
  {
    if n > 0 {
      var last := signals[n - 1].score;
      LeadIsWorth(signals, other, limit, n - 1, last);
      GreedyExtends(signals, limit, n - 1);
      GreedyLeads(signals, other, limit, n);
      var before := Kept(Greedy(signals, limit, n - 1), n - 1) - Kept(other, n - 1);
      var step := (if Greedy(signals, limit, n)[n - 1] then 1 else 0) - (if other[n - 1] then 1 else 0);
      AbelStep(last, floor, before, step,
               Score(signals, Greedy(signals, limit, n - 1), n - 1) - Score(signals, other, n - 1));
    }
  }

  lemma AbelStep(last: int, floor: int, before: int, step: int, gain: int)
    requires gain >= last * before && before + step >= 0 && last >= floor
    ensures gain + last * step >= floor * (before + step)
  {
    assert gain + last * step >= last * (before + step);
    assert (last - floor) * (before + step) >= 0;
  }

  /** The daily selection has the maximum total score among all admissible choices. */
  lemma GreedyOptimal(signals: seq<Signal>, other: seq<bool>, limit: int)
    requires RankedByScore(signals) && forall s | s in signals :: s.score >= 0
    requires Admissible(signals, other, limit)
    ensures Score(signals, other, |signals|)
         <= Score(signals, GreedyChoice(signals, Max(limit, 1)), |signals|)
  {
    LeadIsWorth(signals, other, Max(limit, 1), |signals|, 0);
  }

  lemma GreedyBeatsAll(signals: seq<Signal>, limit: int)
    ensures |Pick(signals, GreedyChoice(signals, Max(limit, 1)), |signals|)| <= Max(limit, 1)
    ensures RankedByScore(signals) && (forall s | s in signals :: s.score >= 0) ==>
              forall other | Admissible(signals, other, limit) ::
                Score(signals, other, |signals|)
                  <= TotalScore(Pick(signals, GreedyChoice(signals, Max(limit, 1)), |signals|))
  {
    GreedyAdmissible(signals, Max(limit, 1));
    PickScores(signals, GreedyChoice(signals, Max(limit, 1)), |signals|);
    if RankedByScore(signals) && forall s | s in signals :: s.score >= 0 {
      forall other | Admissible(signals, other, limit)
        ensures Score(signals, other, |signals|)
             <= TotalScore(Pick(signals, GreedyChoice(signals, Max(limit, 1)), |signals|))
      {
        GreedyOptimal(signals, other, limit);
      }
    }
  }

  lemma {:induction false} GreedyOnPrefix(signals: seq<Signal>, limit: int, k: nat, n: nat)
    requires n <= k <= |signals|
    ensures Greedy(signals[..k], limit, n) == Greedy(signals, limit, n)
    ensures Pick(signals[..k], Greedy(signals, limit, n), n) == Pick(signals, Greedy(signals, limit, n), n)
    ensures Score(signals[..k], Greedy(signals, limit, n), n) == Score(signals, Greedy(signals, limit, n), n)
  {
    if n > 0 {
      var keep := Greedy(signals, limit, n - 1);
      GreedyOnPrefix(signals, limit, k, n - 1);
      KeptInOnPrefix(signals, keep, k, n - 1, {signals[n - 1].subreddit});
      PrefixAgrees(signals, keep, Greedy(signals, limit, n), n - 1);
      PrefixAgrees(signals[..k], keep, Greedy(signals, limit, n), n - 1);
    }
  }

  lemma {:induction false} KeptInOnPrefix(signals: seq<Signal>, keep: seq<bool>, k: nat, n: nat, xs: set<string>)
    requires n <= k <= |signals| && n <= |keep|
    ensures KeptIn(signals[..k], keep, n, xs) == KeptIn(signals, keep, n, xs)
  {
    if n > 0 {
      KeptInOnPrefix(signals, keep, k, n - 1, xs);
    }
  }

  /** When the first `k` signals fill the limit, the greedy choice among them is worth as much as among all. */
  lemma PrefixFillsLimit(signals: seq<Signal>, limit: int, k: nat)
    requires k <= |signals|
    requires |Pick(signals[..k], GreedyChoice(signals[..k], limit), k)| >= limit
    ensures Score(signals[..k], GreedyChoice(signals[..k], limit), k)
         == Score(signals, GreedyChoice(signals, limit), |signals|)
  {
    var some, all := Greedy(signals, limit, k), GreedyChoice(signals, limit);
    GreedyOnPrefix(signals, limit, k, k);
    PickScores(signals, some, k);
    GreedyStaysFull(signals, limit, k, |signals|);
    PickScores(signals, all, |signals|);
  }

  /** The positions before `n` that the choice keeps, and those among them from one subreddit. */
  function KeptPositions(keep: seq<bool>, n: nat): set<nat> {
    set i: nat | i < n && i < |keep| && keep[i]
  }

  function KeptPositionsIn(signals: seq<Signal>, keep: seq<bool>, n: nat, x: string): set<nat> {
    set i: nat | i < n && i < |keep| && i < |signals| && keep[i] && signals[i].subreddit == x
  }

  lemma {:induction false} KeptCounted(keep: seq<bool>, n: nat)
    requires n <= |keep|
    ensures Kept(keep, n) == |KeptPositions(keep, n)|
  {
    if n == 0 {
      assert KeptPositions(keep, n) == {};
    } else {
      KeptCounted(keep, n - 1);
      var kept := KeptPositions(keep, n - 1);
      assert KeptPositions(keep, n) == if keep[n - 1] then kept + {n - 1} else kept;
    }
  }

  lemma {:induction false} KeptInCounted(signals: seq<Signal>, keep: seq<bool>, n: nat, x: string)
    requires n <= |keep| && n <= |signals|
    ensures KeptIn(signals, keep, n, {x}) == |KeptPositionsIn(signals, keep, n, x)|
  {
    if n == 0 {
      assert KeptPositionsIn(signals, keep, n, x) == {};
    } else {
      KeptInCounted(signals, keep, n - 1, x);
      var here, takes := KeptPositionsIn(signals, keep, n - 1, x), keep[n - 1] && signals[n - 1].subreddit == x;
      assert KeptPositionsIn(signals, keep, n, x) == if takes then here + {n - 1} else here;
    }
  }

  /** The selection takes a signal exactly when it is actionable, fewer than two from its subreddit were
      taken before it, and fewer than the limit in all. */
  lemma TakenIff(signals: seq<Signal>, limit: int, k: nat)
    requires k < |signals|
    ensures var keep := GreedyChoice(signals, limit);
            keep[k] <==>
              && signals[k].suggestion != Ignore
              && |KeptPositionsIn(signals, keep, k, signals[k].subreddit)| < 2
              && |KeptPositions(keep, k)| < limit
  {
    var keep, before := GreedyChoice(signals, limit), Greedy(signals, limit, k);
    GreedyAgrees(signals, limit, k, |signals|);
    GreedyAgrees(signals, limit, k + 1, |signals|);
    PrefixAgrees(signals, before, keep, k);
    KeptCounted(keep, k);
    KeptInCounted(signals, keep, k, signals[k].subreddit);
    assert keep[k] == Greedy(signals, limit, k + 1)[k];
  }

  lemma {:induction false} GreedyAgrees(signals: seq<Signal>, limit: int, k: nat, n: nat)
    requires k <= n <= |signals|
    ensures forall i | 0 <= i < k :: Greedy(signals, limit, n)[i] == Greedy(signals, limit, k)[i]
  {
    if k < n {
      GreedyAgrees(signals, limit, k, n - 1);
    }
  }

  /** The result respects the caller's limit exactly when the limit is positive or nothing is actionable. */
  lemma LimitRespectedIff(signals: seq<Signal>, limit: int)
    ensures |Pick(signals, GreedyChoice(signals, Max(limit, 1)), |signals|)| <= Max(limit, 0)
       <==> limit >= 1 || forall s | s in signals :: s.suggestion == Ignore
  {
    var keep := GreedyChoice(signals, Max(limit, 1));
    PickScores(signals, keep, |signals|);
    GreedyAdmissible(signals, Max(limit, 1));
    if limit < 1 {
      if s :| s in signals && s.suggestion != Ignore {
        var i :| 0 <= i < |signals| && signals[i] == s;
        var single := seq(|signals|, j => j == i);
        SingleChoice(signals, single, i, |signals|);
        GreedyLeads(signals, single, 1, |signals|);
      } else {
        NothingTaken(signals, |signals|);
      }
    }
  }

  lemma {:induction false} SingleChoice(signals: seq<Signal>, single: seq<bool>, i: nat, n: nat)
    requires |single| == |signals| && n <= |signals| && i < |signals|
    requires forall j | 0 <= j < |single| :: single[j] == (j == i)
    ensures Kept(single, n) == if i < n then 1 else 0
    ensures forall xs: set<string> :: KeptIn(signals, single, n, xs) <= 1
  {
    if n > 0 {
      SingleChoice(signals, single, i, n - 1);
      forall xs: set<string> ensures KeptIn(signals, single, n, xs) <= 1 {
        KeptInAtMostKept(signals, single, n, xs);
      }
    }
  }

  lemma {:induction false} KeptInAtMostKept(signals: seq<Signal>, keep: seq<bool>, n: nat, xs: set<string>)
    requires n <= |keep| && n <= |signals|
    ensures KeptIn(signals, keep, n, xs) <= Kept(keep, n)
  {
    if n > 0 {
      KeptInAtMostKept(signals, keep, n - 1, xs);
    }
  }

  lemma {:induction false} NothingTaken(signals: seq<Signal>, n: nat)
    requires n <= |signals| && forall s | s in signals :: s.suggestion == Ignore
    ensures Kept(Greedy(signals, 1, n), n) == 0
  {
    if n > 0 {
      NothingTaken(signals, n - 1);
      GreedyExtends(signals, 1, n - 1);
    }
  }
}
