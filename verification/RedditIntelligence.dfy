// Analysing posts under the mention caps, and the daily plan over the stored signals.
module RedditIntelligence {
  import opened Common
  import opened DailySelection

  const WEEK := 7 * 24 * 3600
  const MONTH := 30 * 24 * 3600
  const PAGE := 1000

  // ----- Queries over the table of signals -----

  datatype Group = OfIntent(intent: Intent) | Since(start: int) | InSubreddit(name: string, since: int)

  predicate InGroup(r: Signal, g: Group) {
    match g
    case OfIntent(intent) => r.intent == intent
    case Since(start) => r.createdAt >= start
    case InSubreddit(name, since) => r.subreddit == name && r.createdAt >= since
  }

  function Size(rows: seq<Signal>, g: Group): nat {
    if rows == [] then 0
    else Size(rows[..|rows| - 1], g) + if InGroup(rows[|rows| - 1], g) then 1 else 0
  }

  function Mentions(rows: seq<Signal>, g: Group): nat {
    if rows == [] then 0
    else Mentions(rows[..|rows| - 1], g)
         + if InGroup(rows[|rows| - 1], g) && rows[|rows| - 1].mentionUsed then 1 else 0
  }

  function Performance(rows: seq<Signal>, g: Group): int {
    if rows == [] then 0
    else Performance(rows[..|rows| - 1], g)
         + if InGroup(rows[|rows| - 1], g) then rows[|rows| - 1].performance else 0
  }

  function Average(rows: seq<Signal>, g: Group): real {
    if Size(rows, g) == 0 then 0.0 else Performance(rows, g) as real / Size(rows, g) as real
  }

  function MentionRatio(rows: seq<Signal>, g: Group): real {
    if Size(rows, g) == 0 then 0.0 else Mentions(rows, g) as real / Size(rows, g) as real
  }

  // ----- Analysing one post -----

  /** The text of a post enters only through its intent, its base score and its keyword boost. */
  datatype Post = Post(subreddit: string, intent: Intent, baseScore: int, boost: Option<nat>, now: int)

  function SuggestFromHistory(rows: seq<Signal>, intent: Intent): Suggestion {
    var average := Average(rows, OfIntent(intent));
    match intent
    case Direct => if average < 3.0 then Value else ValuePlusMention
    case Implicit => if average > 15.0 then ValuePlusMention else Value
    case Trend => Ignore
  }

  function ApplyCaps(rows: seq<Signal>, post: Post, suggestion: Suggestion): Suggestion {
    if suggestion == ValuePlusMention
       && (MentionRatio(rows, Since(post.now - WEEK)) > 0.4
           || MentionRatio(rows, InSubreddit(post.subreddit, post.now - WEEK)) > 0.3)
    then Value
    else suggestion
  }

  function OpportunityScore(rows: seq<Signal>, post: Post): int {
    var boosted := if post.boost.Some? then Min(100, post.baseScore + post.boost.value) else post.baseScore;
    var average := Average(rows, InSubreddit(post.subreddit, post.now - MONTH));
    var adjusted := if average > 15.0 then boosted + 8
                    else if average < 3.0 && average != 0.0 then boosted - 5
                    else boosted;
    Max(0, Min(100, adjusted))
  }

  function Analyse(rows: seq<Signal>, post: Post): Signal {
    var suggestion := ApplyCaps(rows, post, SuggestFromHistory(rows, post.intent));
    Signal(post.subreddit, post.intent, OpportunityScore(rows, post), suggestion,
           suggestion == ValuePlusMention, true, 0, post.now)
  }

  // ----- What an analysed post becomes, in counts -----

  /** What one more row adds to each count. */
  lemma CountsGrow(rows: seq<Signal>, r: Signal, intent: Intent, name: string, start: int)
    ensures var all := rows + [r];
            && Size(all, OfIntent(intent)) == Size(rows, OfIntent(intent)) + (if r.intent == intent then 1 else 0)
            && Performance(all, OfIntent(intent))
                 == Performance(rows, OfIntent(intent)) + (if r.intent == intent then r.performance else 0)
            && Size(all, Since(start)) == Size(rows, Since(start)) + (if r.createdAt >= start then 1 else 0)
            && Mentions(all, Since(start))
                 == Mentions(rows, Since(start)) + (if r.createdAt >= start && r.mentionUsed then 1 else 0)
            && var here := r.subreddit == name && r.createdAt >= start;
            && Size(all, InSubreddit(name, start)) == Size(rows, InSubreddit(name, start)) + (if here then 1 else 0)
            && Mentions(all, InSubreddit(name, start))
                 == Mentions(rows, InSubreddit(name, start)) + (if here && r.mentionUsed then 1 else 0)
            && Performance(all, InSubreddit(name, start))
                 == Performance(rows, InSubreddit(name, start)) + (if here then r.performance else 0)
    ensures forall g: Group :: Size([], g) == 0 && Mentions([], g) == 0 && Performance([], g) == 0
  {
    AppendCounts(rows, r, OfIntent(intent));
    AppendCounts(rows, r, Since(start));
    AppendCounts(rows, r, InSubreddit(name, start));
  }

  lemma QuotientVersus(p: int, n: nat, c: int)
    requires n > 0
    ensures p as real / n as real > c as real <==> p > c * n
    ensures p as real / n as real < c as real <==> p < c * n
    ensures p as real / n as real == 0.0 <==> p == 0
  {
    var r, size := p as real / n as real, n as real;
    assert r * size == p as real && c as real * size == (c * n) as real;
    if r > c as real {
      MulLess(c as real, r, size);
    } else if r < c as real {
      MulLess(r, c as real, size);
    }
  }

  lemma RatioWithin(rows: seq<Signal>, g: Group, k: nat)
    ensures MentionRatio(rows, g) > k as real / 10.0 <==> 10 * Mentions(rows, g) > k * Size(rows, g)
  {
    EmptyGroup(rows, g);
    if Size(rows, g) > 0 {
      RatioAbove(Mentions(rows, g), Size(rows, g), k);
    }
  }

  /** What the history of an intent suggests: a mention for a direct post from three points on average, for an
      implicit one above fifteen. */
  lemma SuggestionMeans(rows: seq<Signal>, intent: Intent)
    ensures var n, p := Size(rows, OfIntent(intent)), Performance(rows, OfIntent(intent));
            SuggestFromHistory(rows, intent) ==
              match intent
              case Direct => if n > 0 && p >= 3 * n then ValuePlusMention else Value
              case Implicit => if n > 0 && p > 15 * n then ValuePlusMention else Value
              case Trend => Ignore
  {
    var n, p := Size(rows, OfIntent(intent)), Performance(rows, OfIntent(intent));
    if n > 0 {
      QuotientVersus(p, n, 3);
      QuotientVersus(p, n, 15);
    }
  }

  /** A post earns a mention exactly when it is direct and its intent's rows perform three points on average,
      or implicit and they perform more than fifteen, and neither the week's mentions nor those of its
      subreddit have used up their share.  A trend post is ignored, every other one is answered without. */
  lemma MentionIff(rows: seq<Signal>, post: Post)
    ensures var n, p := Size(rows, OfIntent(post.intent)), Performance(rows, OfIntent(post.intent));
            var week, here := Since(post.now - 604800), InSubreddit(post.subreddit, post.now - 604800);
            var signal := Analyse(rows, post);
            && (signal.mentionUsed <==>
                  && n > 0
                  && ((post.intent == Direct && p >= 3 * n) || (post.intent == Implicit && p > 15 * n))
                  && 10 * Mentions(rows, week) <= 4 * Size(rows, week)
                  && 10 * Mentions(rows, here) <= 3 * Size(rows, here))
            && signal.suggestion == if signal.mentionUsed then ValuePlusMention
                                    else if post.intent == Trend then Ignore else Value
  {
    SuggestionMeans(rows, post.intent);
    RatioWithin(rows, Since(post.now - 604800), 4);
    RatioWithin(rows, InSubreddit(post.subreddit, post.now - 604800), 3);
  }

  /** The score of a post: its base, raised by a keyword up to a hundred, eight more in a subreddit that
      performed above fifteen over thirty days, five less in one below three that performed at all,
      and always between nothing and a hundred. */
  lemma ScoreMeans(rows: seq<Signal>, post: Post)
    ensures var n, p := Size(rows, InSubreddit(post.subreddit, post.now - 2592000)),
                        Performance(rows, InSubreddit(post.subreddit, post.now - 2592000));
            var boosted := if post.boost == None then post.baseScore
                           else if post.baseScore + post.boost.value > 100 then 100
                           else post.baseScore + post.boost.value;
            var raw := boosted + if n > 0 && p > 15 * n then 8 else if n > 0 && p < 3 * n && p != 0 then -5 else 0;
            Analyse(rows, post).score == if raw < 0 then 0 else if raw > 100 then 100 else raw
  {
    var g := InSubreddit(post.subreddit, post.now - 2592000);
    if Size(rows, g) > 0 {
      QuotientVersus(Performance(rows, g), Size(rows, g), 15);
      QuotientVersus(Performance(rows, g), Size(rows, g), 3);
    }
  }

  /** The rest of a new signal: it names its post, waits for an answer, and has not performed yet. */
  lemma NewSignalMeans(rows: seq<Signal>, post: Post)
    ensures var signal := Analyse(rows, post);
            && signal.subreddit == post.subreddit && signal.intent == post.intent && signal.createdAt == post.now
            && signal.pending && signal.performance == 0
  {
  }

  // ----- Runs -----

  datatype Event =
    | PostAnalysed(post: Post)
    | StatusUpdated(row: nat, pending: bool)
    | FeedbackReceived(row: nat, karma: int, replies: int)

  function Step(rows: seq<Signal>, e: Event): seq<Signal> {
    match e
    case PostAnalysed(post) => rows + [Analyse(rows, post)]
    case StatusUpdated(row, pending) =>
      if row < |rows| then rows[row := rows[row].(pending := pending)] else rows
    case FeedbackReceived(row, karma, replies) =>
      if row < |rows| then rows[row := rows[row].(performance := karma + 2 * replies)] else rows
  }

  function Run(rows: seq<Signal>, events: seq<Event>): seq<Signal> {
    if events == [] then rows
    else Step(Run(rows, events[..|events| - 1]), events[|events| - 1])
  }

  /** Feedback changes one row's performance, to its karma and twice its replies; a status update whether it
      is pending; an analysed post appends a row. */
  lemma StepMeans(rows: seq<Signal>, e: Event, i: nat)
    requires i < |rows|
    ensures |Step(rows, e)| == |rows| + if e.PostAnalysed? then 1 else 0
    ensures Step(rows, e)[i] ==
              if e.FeedbackReceived? && i == e.row then rows[i].(performance := e.karma + e.replies + e.replies)
              else if e.StatusUpdated? && i == e.row then rows[i].(pending := e.pending)
              else rows[i]
  {
  }

  // ----- The caps -----

  /** 5M <= 2N + 3 over everything counted, and 10m <= 3n + 7 in each subreddit. */
  ghost predicate CapsHold(rows: seq<Signal>, since: int) {
    && 5 * Mentions(rows, Since(since)) <= 2 * Size(rows, Since(since)) + 3
    && forall x: string ::
         10 * Mentions(rows, InSubreddit(x, since)) <= 3 * Size(rows, InSubreddit(x, since)) + 7
  }

  /** Every row is either before the quiet week that precedes `start`, or not before `start`. */
  ghost predicate OneWeek(rows: seq<Signal>, start: int) {
    forall r | r in rows :: r.createdAt < start - WEEK || r.createdAt >= start
  }

  lemma RatioAbove(m: nat, n: nat, k: nat)
    requires n > 0
    ensures m as real / n as real > k as real / 10.0 <==> 10 * m > k * n
  {
    var r, bound, size := m as real / n as real, k as real / 10.0, n as real;
    assert r * size == m as real && 10.0 * (bound * size) == (k * n) as real;
    if r > bound {
      MulLess(bound, r, size);
    } else if r < bound {
      MulLess(r, bound, size);
    }
  }

  /** A mention is made only while both ratios leave room, so both bounds hold right after it. */
  lemma MentionLeavesCapsHolding(rows: seq<Signal>, post: Post)
    requires Analyse(rows, post).mentionUsed
    ensures var since, after := post.now - WEEK, rows + [Analyse(rows, post)];
            && 5 * Mentions(after, Since(since)) <= 2 * Size(after, Since(since)) + 3
            && 10 * Mentions(after, InSubreddit(post.subreddit, since))
                 <= 3 * Size(after, InSubreddit(post.subreddit, since)) + 7
  {
    var since, after := post.now - WEEK, rows + [Analyse(rows, post)];
    assert after[..|after| - 1] == rows;
    var g, h := Since(since), InSubreddit(post.subreddit, since);
    EmptyGroup(rows, g);
    EmptyGroup(rows, h);
    if Size(rows, g) > 0 { RatioAbove(Mentions(rows, g), Size(rows, g), 4); }
    if Size(rows, h) > 0 { RatioAbove(Mentions(rows, h), Size(rows, h), 3); }
  }

  lemma {:induction false} EmptyGroup(rows: seq<Signal>, g: Group)
    ensures Mentions(rows, g) <= Size(rows, g)
  {
    if rows != [] {
      EmptyGroup(rows[..|rows| - 1], g);
    }
  }

  /** Moving the start of the count inside the quiet gap changes no count. */
  lemma {:induction false} CountsAgree(rows: seq<Signal>, start: int, since: int, x: string)
    requires OneWeek(rows, start) && start - WEEK <= since <= start
    ensures Size(rows, Since(since)) == Size(rows, Since(start))
    ensures Mentions(rows, Since(since)) == Mentions(rows, Since(start))
    ensures Size(rows, InSubreddit(x, since)) == Size(rows, InSubreddit(x, start))
    ensures Mentions(rows, InSubreddit(x, since)) == Mentions(rows, InSubreddit(x, start))
  {
    if rows != [] {
      CountsAgree(rows[..|rows| - 1], start, since, x);
      assert rows[|rows| - 1] in rows;
    }
  }

  lemma {:induction false} UpdateKeepsCounts(rows: seq<Signal>, row: nat, r: Signal, g: Group)
    requires row < |rows| && !g.OfIntent?
    requires rows[row].createdAt == r.createdAt && rows[row].subreddit == r.subreddit
    requires rows[row].mentionUsed == r.mentionUsed
    ensures Size(rows[row := r], g) == Size(rows, g)
    ensures Mentions(rows[row := r], g) == Mentions(rows, g)
  {
    var n := |rows| - 1;
    if row < n {
      UpdateKeepsCounts(rows[..n], row, r, g);
      assert rows[row := r][..n] == rows[..n][row := r];
    } else {
      assert rows[row := r][..n] == rows[..n];
    }
  }

  ghost predicate WithinSpan(e: Event, start: int, span: nat) {
    e.PostAnalysed? ==> start <= e.post.now <= start + span
  }

  lemma AppendCounts(rows: seq<Signal>, s: Signal, g: Group)
    ensures Size(rows + [s], g) == Size(rows, g) + if InGroup(s, g) then 1 else 0
    ensures Mentions(rows + [s], g) == Mentions(rows, g) + if InGroup(s, g) && s.mentionUsed then 1 else 0
    ensures Performance(rows + [s], g) == Performance(rows, g) + if InGroup(s, g) then s.performance else 0
  {
    assert (rows + [s])[..|rows|] == rows;
  }

  lemma AnalysisKeepsCaps(rows: seq<Signal>, post: Post, start: int, x: string)
    requires OneWeek(rows, start) && CapsHold(rows, start) && start <= post.now <= start + WEEK
    ensures var after := rows + [Analyse(rows, post)];
            && 10 * Mentions(after, InSubreddit(x, start)) <= 3 * Size(after, InSubreddit(x, start)) + 7
            && 5 * Mentions(after, Since(start)) <= 2 * Size(after, Since(start)) + 3
  {
    var signal := Analyse(rows, post);
    AppendCounts(rows, signal, InSubreddit(x, start));
    AppendCounts(rows, signal, Since(start));
    if signal.mentionUsed {
      MentionLeavesCapsHolding(rows, post);
      CountsAgree(rows + [signal], start, post.now - WEEK, post.subreddit);
    }
  }

  lemma StepKeepsCaps(rows: seq<Signal>, e: Event, start: int)
    requires OneWeek(rows, start) && CapsHold(rows, start) && WithinSpan(e, start, WEEK)
    ensures OneWeek(Step(rows, e), start) && CapsHold(Step(rows, e), start)
  {
    if e.PostAnalysed? {
      AnalysisKeepsCaps(rows, e.post, start, "");
      forall x: string
        ensures 10 * Mentions(Step(rows, e), InSubreddit(x, start))
             <= 3 * Size(Step(rows, e), InSubreddit(x, start)) + 7
      {
        AnalysisKeepsCaps(rows, e.post, start, x);
      }
    } else if e.row < |rows| {
      UpdateKeepsCounts(rows, e.row, Step(rows, e)[e.row], Since(start));
      forall x: string
        ensures Size(Step(rows, e), InSubreddit(x, start)) == Size(rows, InSubreddit(x, start))
        ensures Mentions(Step(rows, e), InSubreddit(x, start)) == Mentions(rows, InSubreddit(x, start))
      {
        UpdateKeepsCounts(rows, e.row, Step(rows, e)[e.row], InSubreddit(x, start));
      }
    }
  }

  lemma {:induction false} NothingCounted(rows: seq<Signal>, g: Group)
    requires forall r | r in rows :: !InGroup(r, g)
    ensures Size(rows, g) == 0 && Mentions(rows, g) == 0
  {
    if rows != [] {
      forall r | r in rows[..|rows| - 1] ensures !InGroup(r, g) {
        assert r in rows;
      }
      NothingCounted(rows[..|rows| - 1], g);
      assert rows[|rows| - 1] in rows;
    }
  }

  /** Inside one counting week the caps hold after every run of posts, feedback and status changes. */
  lemma {:induction false} CapsHoldOverRuns(rows: seq<Signal>, events: seq<Event>, start: int)
    requires forall r | r in rows :: r.createdAt < start - WEEK
    requires forall e | e in events :: WithinSpan(e, start, WEEK)
    ensures OneWeek(Run(rows, events), start) && CapsHold(Run(rows, events), start)
  {
    if events == [] {
      NothingCounted(rows, Since(start));
      forall x: string
        ensures Size(rows, InSubreddit(x, start)) == 0 && Mentions(rows, InSubreddit(x, start)) == 0
      {
        NothingCounted(rows, InSubreddit(x, start));
      }
    } else {
      var e := events[|events| - 1];
      assert e in events;
      CapsHoldOverRuns(rows, events[..|events| - 1], start);
      StepKeepsCaps(Run(rows, events[..|events| - 1]), e, start);
    }
  }

  lemma RunThen(rows: seq<Signal>, events: seq<Event>, e: Event)
    ensures Run(rows, events + [e]) == Step(Run(rows, events), e)
  {
    assert (events + [e])[..|events|] == events;
  }

  lemma AverageAtLeastThree(p: int, n: nat)
    requires n > 0 && p >= 3 * n
    ensures p as real / n as real >= 3.0
  {
    var r := p as real / n as real;
    assert r * n as real == p as real;
    if r < 3.0 {
      MulLess(r, 3.0, n as real);
    }
  }

  /** A direct post in a fresh subreddit earns a mention while the week's ratio allows it. */
  lemma FreshMention(rows: seq<Signal>, post: Post)
    requires post.intent == Direct
    requires Performance(rows, OfIntent(Direct)) >= 3 * Size(rows, OfIntent(Direct)) > 0
    requires Size(rows, InSubreddit(post.subreddit, post.now - WEEK)) == 0
    requires 10 * Mentions(rows, Since(post.now - WEEK)) <= 4 * Size(rows, Since(post.now - WEEK))
    ensures Analyse(rows, post).mentionUsed
  {
    AverageAtLeastThree(Performance(rows, OfIntent(Direct)), Size(rows, OfIntent(Direct)));
    var h := Since(post.now - WEEK);
    if Size(rows, h) > 0 { RatioAbove(Mentions(rows, h), Size(rows, h), 4); }
  }

  lemma PairCounts(s0: Signal, s1: Signal, g: Group)
    ensures Size([s0] + [s1], g) == (if InGroup(s0, g) then 1 else 0) + (if InGroup(s1, g) then 1 else 0)
    ensures !s0.mentionUsed && !s1.mentionUsed ==> Mentions([s0] + [s1], g) == 0
    ensures Performance([s0] + [s1], g) == (if InGroup(s0, g) then s0.performance else 0)
                                         + (if InGroup(s1, g) then s1.performance else 0)
  {
    AppendCounts([], s0, g);
    assert [] + [s0] == [s0];
    AppendCounts([s0], s1, g);
  }

  /** Two replies without a mention, then two mentions one second later. */
  lemma TwoThenTwo(s0: Signal, b: Post, c: Post, d: Post)
    requires s0.intent == Direct && s0.performance == 20 && !s0.mentionUsed
    requires b.intent == Trend && b.now == s0.createdAt
    requires c.intent == d.intent == Direct && c.now == d.now == b.now + 1
    requires s0.subreddit != c.subreddit && s0.subreddit != d.subreddit
    requires b.subreddit != c.subreddit && b.subreddit != d.subreddit && c.subreddit != d.subreddit
    ensures var rows1 := [s0] + [Analyse([s0], b)];
            var rows2 := rows1 + [Analyse(rows1, c)];
            var rows3 := rows2 + [Analyse(rows2, d)];
            !CapsHold(rows3, c.now)
  {
    var s1, t := Analyse([s0], b), c.now;
    var rows1 := [s0] + [s1];
    var direct, week := OfIntent(Direct), Since(t - WEEK);
    PairCounts(s0, s1, direct);
    PairCounts(s0, s1, week);
    PairCounts(s0, s1, InSubreddit(c.subreddit, t - WEEK));
    PairCounts(s0, s1, InSubreddit(d.subreddit, t - WEEK));
    PairCounts(s0, s1, Since(t));
    FreshMention(rows1, c);
    var s2 := Analyse(rows1, c);
    var rows2 := rows1 + [s2];
    AppendCounts(rows1, s2, direct);
    AppendCounts(rows1, s2, week);
    AppendCounts(rows1, s2, InSubreddit(d.subreddit, t - WEEK));
    AppendCounts(rows1, s2, Since(t));
    FreshMention(rows2, d);
    AppendCounts(rows2, Analyse(rows2, d), Since(t));
  }

  function DirectPost(subreddit: string, now: int): Post {
    Post(subreddit, Direct, 80, None, now)
  }

  /** A direct post that is then praised, and a trend post beside it. */
  function QuietPosts(start: int): seq<Event> {
    [PostAnalysed(DirectPost("a", start))] + [FeedbackReceived(0, 20, 0)]
    + [PostAnalysed(Post("b", Trend, 30, None, start))]
  }

  lemma QuietRows(start: int) returns (s0: Signal)
    ensures s0.intent == Direct && s0.performance == 20 && !s0.mentionUsed
    ensures s0.createdAt == start && s0.subreddit == "a"
    ensures Run([], QuietPosts(start)) == [s0] + [Analyse([s0], Post("b", Trend, 30, None, start))]
  {
    var a, praise := PostAnalysed(DirectPost("a", start)), FeedbackReceived(0, 20, 0);
    var r0 := Analyse([], DirectPost("a", start));
    s0 := r0.(performance := 20);
    assert [] + [a] == [a];
    RunThen([], [], a);
    RunThen([], [a], praise);
    assert Run([], [a] + [praise]) == [s0];
    RunThen([], [a] + [praise], PostAnalysed(Post("b", Trend, 30, None, start)));
  }

  /** Across a week boundary they need not hold: old replies without a mention stop counting. */
  lemma CapsMayLapseAcrossWeeks(start: int) returns (events: seq<Event>)
    ensures forall e | e in events :: WithinSpan(e, start, 1)
    ensures !CapsHold(Run([], events), start + 1)
  {
    var c, d := DirectPost("c", start + 1), DirectPost("d", start + 1);
    events := QuietPosts(start) + [PostAnalysed(c)] + [PostAnalysed(d)];
    var s0 := QuietRows(start);
    RunThen([], QuietPosts(start), PostAnalysed(c));
    RunThen([], QuietPosts(start) + [PostAnalysed(c)], PostAnalysed(d));
    assert "a"[0] != "c"[0] && "a"[0] != "d"[0] && "b"[0] != "c"[0] && "b"[0] != "d"[0] && "c"[0] != "d"[0];
    TwoThenTwo(s0, Post("b", Trend, 30, None, start), c, d);
  }

  /** Whenever all posts so far fall between `start` and `t`, at most `span` later, the caps hold at `t`. */
  ghost predicate CapsHoldAt(events: seq<Event>, start: int, span: nat, t: int) {
    (forall e | e in events :: WithinSpan(e, start, span)) && start <= t <= start + span ==> CapsHold(Run([], events), t - WEEK)
  }

  lemma CapsHoldWithinWeek(events: seq<Event>, start: int, span: nat, t: int)
    requires span <= WEEK
    ensures CapsHoldAt(events, start, span, t)
  {
    if (forall e | e in events :: WithinSpan(e, start, span)) && start <= t <= start + span {
      forall e | e in events ensures WithinSpan(e, start, WEEK) {
        assert WithinSpan(e, start, span);
      }
      CapsHoldOverRuns([], events, start);
      var rows, since := Run([], events), t - WEEK;
      CountsAgree(rows, start, since, "");
      forall x: string
        ensures 10 * Mentions(rows, InSubreddit(x, since)) <= 3 * Size(rows, InSubreddit(x, since)) + 7
      {
        CountsAgree(rows, start, since, x);
      }
    }
  }

  /** The caps hold at any time over every run of posts inside a span exactly when it is at most a week. */
  lemma CapsHoldIff(start: int, span: nat)
    ensures (forall events, t :: CapsHoldAt(events, start, span, t)) <==> span <= WEEK
  {
    if span <= WEEK {
      forall events, t ensures CapsHoldAt(events, start, span, t) {
        CapsHoldWithinWeek(events, start, span, t);
      }
    } else {
      var events := CapsMayLapseAcrossWeeks(start);
      forall e | e in events ensures WithinSpan(e, start, span) {
        assert WithinSpan(e, start, 1);
      }
      assert !CapsHoldAt(events, start, span, start + 1 + WEEK);
    }
  }

  // ----- What holds across weeks -----

  lemma {:induction false} LaterCountsFewer(rows: seq<Signal>, since: int, later: int, x: string)
    requires since <= later
    ensures Size(rows, Since(later)) <= Size(rows, Since(since))
    ensures Mentions(rows, Since(later)) <= Mentions(rows, Since(since))
    ensures Size(rows, InSubreddit(x, later)) <= Size(rows, InSubreddit(x, since))
    ensures Mentions(rows, InSubreddit(x, later)) <= Mentions(rows, InSubreddit(x, since))
  {
    if rows != [] {
      LaterCountsFewer(rows[..|rows| - 1], since, later, x);
    }
  }

  /** The mentions of one week against all signals of two, overall and in a subreddit. */
  ghost predicate TwoWeekCaps(rows: seq<Signal>, t: int, x: string) {
    && 5 * Mentions(rows, Since(t - WEEK)) <= 2 * Size(rows, Since(t - 2 * WEEK)) + 3
    && 10 * Mentions(rows, InSubreddit(x, t - WEEK)) <= 3 * Size(rows, InSubreddit(x, t - 2 * WEEK)) + 7
  }

  /** A mention of the last week was allowed by a week that lies within the last two. */
  lemma AnalysisKeepsTwoWeekCaps(rows: seq<Signal>, post: Post, t: int, x: string)
    requires TwoWeekCaps(rows, t, x) && post.now <= t
    ensures TwoWeekCaps(rows + [Analyse(rows, post)], t, x)
  {
    var signal := Analyse(rows, post);
    var after := rows + [signal];
    AppendCounts(rows, signal, Since(t - WEEK));
    AppendCounts(rows, signal, Since(t - 2 * WEEK));
    AppendCounts(rows, signal, InSubreddit(x, t - WEEK));
    AppendCounts(rows, signal, InSubreddit(x, t - 2 * WEEK));
    if signal.mentionUsed && post.now >= t - WEEK {
      MentionLeavesCapsHolding(rows, post);
      LaterCountsFewer(after, post.now - WEEK, t - WEEK, post.subreddit);
      LaterCountsFewer(after, t - 2 * WEEK, post.now - WEEK, post.subreddit);
    }
  }

  /** Over every run whatsoever, up to any time `t` that no post lies after: the week's mentions stay within
      the caps of the last two weeks' signals. */
  lemma {:induction false} TwoWeekCapsHold(events: seq<Event>, t: int, x: string)
    requires forall e | e in events && e.PostAnalysed? :: e.post.now <= t
    ensures TwoWeekCaps(Run([], events), t, x)
  {
    if events != [] {
      var rows, e := Run([], events[..|events| - 1]), events[|events| - 1];
      assert e in events;
      TwoWeekCapsHold(events[..|events| - 1], t, x);
      if e.PostAnalysed? {
        AnalysisKeepsTwoWeekCaps(rows, e.post, t, x);
      } else if e.row < |rows| {
        UpdateKeepsTwoWeekCaps(rows, e.row, Step(rows, e)[e.row], t, x);
      }
    }
  }

  lemma UpdateKeepsTwoWeekCaps(rows: seq<Signal>, row: nat, r: Signal, t: int, x: string)
    requires TwoWeekCaps(rows, t, x) && row < |rows| && rows[row].createdAt == r.createdAt
    requires rows[row].subreddit == r.subreddit && rows[row].mentionUsed == r.mentionUsed
    ensures TwoWeekCaps(rows[row := r], t, x)
  {
    UpdateKeepsCounts(rows, row, r, Since(t - WEEK));
    UpdateKeepsCounts(rows, row, r, Since(t - 2 * WEEK));
    UpdateKeepsCounts(rows, row, r, InSubreddit(x, t - WEEK));
    UpdateKeepsCounts(rows, row, r, InSubreddit(x, t - 2 * WEEK));
  }

  // ----- Pending signals in query order -----

  predicate RanksBefore(a: Signal, b: Signal) {
    a.score > b.score || (a.score == b.score && a.createdAt >= b.createdAt)
  }

  function InsertRanked(s: Signal, ranked: seq<Signal>): seq<Signal> {
    if ranked == [] then [s]
    else if RanksBefore(s, ranked[0]) then [s] + ranked
    else [ranked[0]] + InsertRanked(s, ranked[1..])
  }

  function PendingRanked(rows: seq<Signal>): seq<Signal> {
    if rows == [] then []
    else
      var ranked := PendingRanked(rows[..|rows| - 1]);
      if rows[|rows| - 1].pending then InsertRanked(rows[|rows| - 1], ranked) else ranked
  }

  function PendingOnly(rows: seq<Signal>): seq<Signal> {
    if rows == [] then []
    else PendingOnly(rows[..|rows| - 1])
         + if rows[|rows| - 1].pending then [rows[|rows| - 1]] else []
  }

  function FirstPage(rows: seq<Signal>, limit: int): seq<Signal> {
    var ranked := PendingRanked(rows);
    if |ranked| <= Max(limit, 0) then ranked else ranked[..Max(limit, 0)]
  }

  ghost predicate Ranked(s: seq<Signal>) {
    forall i, j | 0 <= i < j < |s| :: RanksBefore(s[i], s[j])
  }

  lemma {:induction false} InsertAddsOne(s: Signal, ranked: seq<Signal>)
    ensures multiset(InsertRanked(s, ranked)) == multiset(ranked) + multiset{s}
    ensures forall x | x in InsertRanked(s, ranked) :: x == s || x in ranked
  {
    if ranked != [] {
      assert ranked == [ranked[0]] + ranked[1..];
      if !RanksBefore(s, ranked[0]) {
        InsertAddsOne(s, ranked[1..]);
      }
    }
  }

  lemma {:induction false} InsertKeepsRanked(s: Signal, ranked: seq<Signal>)
    requires Ranked(ranked)
    ensures Ranked(InsertRanked(s, ranked))
  {
    if ranked != [] {
      if RanksBefore(s, ranked[0]) {
        forall x | x in ranked ensures RanksBefore(s, x) {
        }
        HeadKeepsRanked(s, ranked);
      } else {
        InsertKeepsRanked(s, ranked[1..]);
        InsertAddsOne(s, ranked[1..]);
        HeadKeepsRanked(ranked[0], InsertRanked(s, ranked[1..]));
      }
    }
  }

  lemma HeadKeepsRanked(head: Signal, rest: seq<Signal>)
    requires Ranked(rest) && forall x | x in rest :: RanksBefore(head, x)
    ensures Ranked([head] + rest)
  {
    var all := [head] + rest;
    forall i, j | 0 <= i < j < |all| ensures RanksBefore(all[i], all[j]) {
      assert all[j] == rest[j - 1];
      assert i > 0 ==> all[i] == rest[i - 1];
    }
  }

  /** The query returns exactly the pending rows, by score and then by recency. */
  lemma {:induction false} PendingRankedIsSorted(rows: seq<Signal>)
    ensures Ranked(PendingRanked(rows))
    ensures multiset(PendingRanked(rows)) == multiset(PendingOnly(rows))
    ensures forall i, j | 0 <= i < j < |PendingRanked(rows)| ::
              var a, b := PendingRanked(rows)[i], PendingRanked(rows)[j];
              a.score > b.score || (a.score == b.score && a.createdAt >= b.createdAt)
  {
    if rows != [] {
      PendingRankedIsSorted(rows[..|rows| - 1]);
      if rows[|rows| - 1].pending {
        InsertKeepsRanked(rows[|rows| - 1], PendingRanked(rows[..|rows| - 1]));
        InsertAddsOne(rows[|rows| - 1], PendingRanked(rows[..|rows| - 1]));
      }
    }
  }

  lemma {:induction false} PendingOnlyFromTable(rows: seq<Signal>)
    ensures forall s :: s in PendingOnly(rows) <==> s in rows && s.pending
  {
    if rows != [] {
      PendingOnlyFromTable(rows[..|rows| - 1]);
      assert rows == rows[..|rows| - 1] + [rows[|rows| - 1]];
    }
  }

  lemma PageIsRankedFromTable(rows: seq<Signal>, limit: int)
    ensures RankedByScore(FirstPage(rows, limit))
    ensures forall s | s in FirstPage(rows, limit) :: s in rows && s.pending
    ensures |PendingOnly(rows)| <= limit ==>
              multiset(FirstPage(rows, limit)) == multiset(PendingOnly(rows))
  {
    PendingRankedIsSorted(rows);
    PendingOnlyFromTable(rows);
    assert |PendingRanked(rows)| == |multiset(PendingRanked(rows))| == |PendingOnly(rows)|;
    var ranked, page := PendingRanked(rows), FirstPage(rows, limit);
    forall s | s in page ensures s in rows && s.pending {
      assert s in multiset(ranked);
    }
    forall i, j | 0 <= i < j < |page| ensures page[i].score >= page[j].score {
      assert RanksBefore(ranked[i], ranked[j]);
    }
  }

  ghost predicate ScoresInRange(rows: seq<Signal>) {
    forall r | r in rows :: 0 <= r.score <= 100
  }

  lemma {:induction false} ScoresStayInRange(rows: seq<Signal>, events: seq<Event>)
    requires ScoresInRange(rows)
    ensures ScoresInRange(Run(rows, events))
  {
    if events != [] {
      ScoresStayInRange(rows, events[..|events| - 1]);
    }
  }

  /** In every reachable table the daily plan is optimal among the first thousand pending signals. */
  lemma DailyPlanOptimalOverRuns(events: seq<Event>, other: seq<bool>, limit: int)
    requires Admissible(FirstPage(Run([], events), PAGE), other, limit)
    ensures var page := FirstPage(Run([], events), PAGE);
            Score(page, other, |page|) <= Score(page, GreedyChoice(page, Max(limit, 1)), |page|)
  {
    ScoresStayInRange([], events);
    PageIsRankedFromTable(Run([], events), PAGE);
    GreedyOptimal(FirstPage(Run([], events), PAGE), other, limit);
  }

  /** A page is as long as its limit allows, never negative; the daily plan's page holds a thousand. */
  lemma PageSize(rows: seq<Signal>, limit: int)
    ensures |FirstPage(rows, limit)|
         == if limit < 0 then 0 else if |PendingOnly(rows)| <= limit then |PendingOnly(rows)| else limit
    ensures |FirstPage(rows, PAGE)| == if |PendingOnly(rows)| <= 1000 then |PendingOnly(rows)| else 1000
  {
    PendingRankedIsSorted(rows);
    assert |PendingRanked(rows)| == |multiset(PendingRanked(rows))| == |PendingOnly(rows)|;
  }

  /** When no pending signal is left off the page, or the page fills the limit, the daily plan is
      optimal among all pending signals of every reachable table. */
  lemma DailyPlanOptimalOverall(events: seq<Event>, other: seq<bool>, limit: int)
    requires var all := PendingRanked(Run([], events)); Admissible(all, other, limit)
    requires var all, page, top := PendingRanked(Run([], events)), FirstPage(Run([], events), PAGE), Max(limit, 1);
             |all| <= PAGE || |Pick(page, GreedyChoice(page, top), |page|)| >= top
    ensures var all, page := PendingRanked(Run([], events)), FirstPage(Run([], events), PAGE);
            Score(all, other, |all|) <= Score(page, GreedyChoice(page, Max(limit, 1)), |page|)
  {
    var rows, top := Run([], events), Max(limit, 1);
    var all, page := PendingRanked(rows), FirstPage(rows, PAGE);
    ScoresStayInRange([], events);
    AllPendingRanked(rows);
    GreedyOptimal(all, other, limit);
    PickScores(page, GreedyChoice(page, top), |page|);
    if |all| > PAGE {
      PrefixFillsLimit(all, top, |page|);
    }
  }

  lemma AllPendingRanked(rows: seq<Signal>)
    ensures RankedByScore(PendingRanked(rows))
    ensures forall s | s in PendingRanked(rows) :: s in rows
  {
    PageIsRankedFromTable(rows, |PendingRanked(rows)|);
  }

  // ----- The repository and the service -----

  class RedditSignalRepository {
    var rows: seq<Signal>

    constructor ()
      ensures rows == []
    {
      rows := [];
    }

    method SaveSignal(signal: Signal)
      modifies this
      ensures rows == old(rows) + [signal]
    {
      rows := rows + [signal];
    }

    method UpdateSignalStatus(row: nat, pending: bool)
      modifies this
      ensures rows == Step(old(rows), StatusUpdated(row, pending))
      ensures |rows| == |old(rows)| && forall i | 0 <= i < |rows| ::
                rows[i] == if i == row then old(rows)[i].(pending := pending) else old(rows)[i]
    {
      if row < |rows| {
        rows := rows[row := rows[row].(pending := pending)];
      }
    }

    method UpdateFeedback(row: nat, karma: int, replies: int)
      modifies this
      ensures rows == Step(old(rows), FeedbackReceived(row, karma, replies))
      ensures |rows| == |old(rows)| && forall i | 0 <= i < |rows| ::
                rows[i] == if i == row then old(rows)[i].(performance := karma + 2 * replies) else old(rows)[i]
    {
      if row < |rows| {
        rows := rows[row := rows[row].(performance := karma + 2 * replies)];
      }
    }
  }

  class RedditIntelligenceService {
    const repository: RedditSignalRepository

    constructor (repository: RedditSignalRepository)
      ensures this.repository == repository
    {
      this.repository := repository;
    }

    method AnalysePost(post: Post) returns (signal: Signal)
      modifies repository
      ensures repository.rows == Step(old(repository.rows), PostAnalysed(post))
      ensures signal == repository.rows[|repository.rows| - 1]
    {
      var rows := repository.rows;
      var suggestion := SuggestFromHistory(rows, post.intent);
      var globalRatio := MentionRatio(rows, Since(post.now - WEEK));
      var subredditRatio := MentionRatio(rows, InSubreddit(post.subreddit, post.now - WEEK));
      if suggestion == ValuePlusMention {
        if globalRatio > 0.4 {
          suggestion := Value;
        }
        if suggestion == ValuePlusMention && subredditRatio > 0.3 {
          suggestion := Value;
        }
      }
      var score := post.baseScore;
      if post.boost.Some? {
        score := Min(100, score + post.boost.value);
      }
      var average := Average(rows, InSubreddit(post.subreddit, post.now - MONTH));
      if average > 15.0 {
        score := score + 8;
      } else if average < 3.0 && average != 0.0 {
        score := score - 5;
      }
      score := Max(0, Min(100, score));
      signal := Signal(post.subreddit, post.intent, score, suggestion,
                       suggestion == ValuePlusMention, true, 0, post.now);
      repository.SaveSignal(signal);
    }

    method DailyPlan(limit: int) returns (selected: seq<Signal>)
      ensures forall s | s in selected :: s in repository.rows && s.pending && s.suggestion != Ignore
      ensures ScoresInRange(repository.rows) ==>
                var page := FirstPage(repository.rows, PAGE);
                forall other | Admissible(page, other, limit) ::
                  Score(page, other, |page|) <= TotalScore(selected)
    {
      var page := FirstPage(repository.rows, PAGE);
      selected := GetDailyTopActions(page, limit);
      PageIsRankedFromTable(repository.rows, PAGE);
      GreedyAdmissible(page, Max(limit, 1));
      PickedFrom(page, GreedyChoice(page, Max(limit, 1)), |page|);
    }
  }

  lemma {:induction false} PickedFrom(signals: seq<Signal>, keep: seq<bool>, n: nat)
    requires n <= |keep| && n <= |signals|
    requires forall i | 0 <= i < n :: keep[i] ==> signals[i].suggestion != Ignore
    ensures forall s | s in Pick(signals, keep, n) :: s in signals && s.suggestion != Ignore
  {
    if n > 0 {
      PickedFrom(signals, keep, n - 1);
    }
  }
}
