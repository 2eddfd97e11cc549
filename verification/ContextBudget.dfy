// Fitting a conversation into a token budget (the length-based token counter).
module ContextBudget {
  import opened Common
  import opened Text

  datatype Message = Message(role: string, content: string)

  const ELLIPSIS := "\U{2026}"

  // ----- Counting tokens -----

  function Cost(m: Message): (r: nat)
    ensures r >= 1
  {
    Max(|m.role + ": " + m.content| / 4, 1)
  }

  function Tokens(ms: seq<Message>): (r: nat)
    ensures r >= |ms|
  {
    if ms == [] then 0 else Tokens(ms[..|ms| - 1]) + Cost(ms[|ms| - 1])
  }

  function TokenCount(ms: seq<Message>): (r: nat)
    ensures r >= 1
  {
    Max(Tokens(ms), 1)
  }

  lemma {:induction false} TokensConcat(a: seq<Message>, b: seq<Message>)
    ensures Tokens(a + b) == Tokens(a) + Tokens(b)
  {
    if b == [] {
      assert a + b == a;
    } else {
      TokensConcat(a, b[..|b| - 1]);
      assert (a + b)[..|a + b| - 1] == a + b[..|b| - 1];
    }
  }

  lemma TokensSingle(m: Message)
    ensures Tokens([m]) == Cost(m)
  {
    assert [m][..0] == [];
  }

  /** A message costs a quarter of its "role: content" text, rounded down, and at least one token. */
  lemma CostBounds(m: Message)
    ensures var length := |m.role| + 2 + |m.content|;
            if length < 8 then Cost(m) == 1 else 4 * Cost(m) <= length < 4 * Cost(m) + 4
  {
  }

  // ----- Shortening one message -----

  /** The message cut after `k` characters, right-stripped, with an ellipsis when truly cut. */
  function Shortened(m: Message, k: nat): Message
    requires k <= |m.content|
  {
    m.(content := RStrip(m.content[..k]) + if 0 < k < |m.content| then ELLIPSIS else "")
  }

  predicate Fits(base: seq<Message>, m: Message, budget: int) {
    TokenCount(base + [m]) <= budget
  }

  /** The cut after `k` characters fits next to `base`. */
  ghost predicate CutFits(m: Message, base: seq<Message>, budget: int, k: nat) {
    k <= |m.content| && Fits(base, Shortened(m, k), budget)
  }

  /** `k` is the last cut before the first one that does not fit. */
  ghost predicate LastFitting(m: Message, base: seq<Message>, budget: int, k: nat) {
    && k <= |m.content|
    && (forall j | 0 <= j <= k :: CutFits(m, base, budget, j))
    && !CutFits(m, base, budget, k + 1)
  }

  lemma LongerCostsMore(base: seq<Message>, a: Message, b: Message, budget: int)
    requires a.role == b.role && |a.content| <= |b.content| && Fits(base, b, budget)
    ensures Fits(base, a, budget)
  {
    TokensConcat(base, [a]);
    TokensConcat(base, [b]);
    TokensSingle(a);
    TokensSingle(b);
  }

  lemma RStripGrows(s: string, j: nat, k: nat)
    requires j < k <= |s|
    ensures |RStrip(s[..j])| <= |RStrip(s[..k])|
    ensures !IsSpace(s[k - 1]) ==> |RStrip(s[..j])| < |RStrip(s[..k])| == k
  {
    RStripMeaning(s[..j]);
    RStripMeaning(s[..k]);
    var a, b := RStrip(s[..j]), RStrip(s[..k]);
    assert forall i | 0 <= i < |a| :: a[i] == s[i];
    assert forall i | |b| <= i < k :: s[..k][i] == s[i];
    assert |b| < k ==> IsSpace(s[..k][k - 1]);
  }

  /** Fitting is downward closed below the full length, and at it unless the content ends in a space. */
  lemma CutsAreMonotone(m: Message, base: seq<Message>, budget: int, j: nat, k: nat)
    requires j <= k && CutFits(m, base, budget, k)
    requires k == |m.content| > 0 ==> !IsSpace(m.content[k - 1]) || j == k
    ensures CutFits(m, base, budget, j)
  {
    if j < k {
      RStripGrows(m.content, j, k);
      LongerCostsMore(base, Shortened(m, j), Shortened(m, k), budget);
    }
  }

  /** A cut keeps the role and a prefix of the content without trailing whitespace; the ellipsis marks
      every cut that is neither empty nor whole. */
  lemma ShortenedMeans(m: Message, k: nat) returns (kept: nat)
    requires k <= |m.content|
    ensures kept <= k && (kept > 0 ==> !IsSpace(m.content[kept - 1]))
    ensures forall i | kept <= i < k :: IsSpace(m.content[i])
    ensures Shortened(m, k) == Message(m.role, m.content[..kept] + if k == 0 || k == |m.content| then "" else "\U{2026}")
  {
    var cut := m.content[..k];
    RStripMeaning(cut);
    kept := |RStrip(cut)|;
    assert cut[..kept] == m.content[..kept];
    assert forall i | 0 <= i < k :: cut[i] == m.content[i];
  }

  lemma LastFittingUnique(m: Message, base: seq<Message>, budget: int, j: nat, k: nat)
    requires LastFitting(m, base, budget, j) && LastFitting(m, base, budget, k)
    ensures j == k
  {
  }

  /** The kept cut is the longest one that fits exactly when the whole content, if it fits,
      is not the only long cut that does. */
  lemma LongestCutIff(m: Message, base: seq<Message>, budget: int, k: nat)
    requires LastFitting(m, base, budget, k)
    ensures (forall j: nat :: CutFits(m, base, budget, j) ==> j <= k)
       <==> |m.content| == 0
            || (CutFits(m, base, budget, |m.content|) ==> CutFits(m, base, budget, |m.content| - 1))
  {
    var n := |m.content|;
    if n > 0 && CutFits(m, base, budget, n) && !CutFits(m, base, budget, n - 1) {
      assert k < n - 1;
    } else {
      forall j: nat | CutFits(m, base, budget, j) ensures j <= k {
        if k < j {
          var below := if j == n && k + 1 < n then n - 1 else j;
          CutsAreMonotone(m, base, budget, k + 1, below);
        }
      }
    }
  }

  /** In particular it is the longest whenever the content does not end in whitespace. */
  lemma LongestCutWithoutTrailingSpace(m: Message, base: seq<Message>, budget: int, k: nat, j: nat)
    requires LastFitting(m, base, budget, k)
    requires m.content == "" || !IsSpace(m.content[|m.content| - 1])
    requires CutFits(m, base, budget, j)
    ensures j <= k
  {
    if k < j {
      CutsAreMonotone(m, base, budget, k + 1, j);
    }
  }

  /** With trailing whitespace a longer cut can be missed. */
  lemma TrailingSpaceLosesText() returns (m: Message, budget: int)
    ensures LastFitting(m, [], budget, 3) && CutFits(m, [], budget, 5) && |m.content| == 5
    ensures Shortened(m, 3).content == "abc" + ELLIPSIS && Shortened(m, 5).content == "abcd"
  {
    m, budget := Message("u", "abcd "), 1;
    UnspacedCut(m, 0);
    UnspacedCut(m, 1);
    UnspacedCut(m, 2);
    UnspacedCut(m, 3);
    UnspacedCut(m, 4);
    assert m.content[..5] == m.content && m.content[..3] == "abc" && m.content[..4] == "abcd";
    assert RStrip(m.content) == RStrip(m.content[..4]);
    LoneCutFits(m, 5);
  }

  lemma UnspacedCut(m: Message, j: nat)
    requires |m.role| == 1 && |m.content| == 5 && j <= 4 && forall i | 0 <= i < 4 :: !IsSpace(m.content[i])
    ensures RStrip(m.content[..j]) == m.content[..j]
    ensures CutFits(m, [], 1, j) <==> j != 4
  {
    assert j > 0 ==> m.content[..j][j - 1] == m.content[j - 1];
    LoneCutFits(m, j);
  }

  lemma LoneCutFits(m: Message, j: nat)
    requires |m.role| == 1 && j <= |m.content|
    ensures CutFits(m, [], 1, j) <==> |Shortened(m, j).content| <= 4
  {
    TokensSingle(Shortened(m, j));
    assert [] + [Shortened(m, j)] == [Shortened(m, j)];
  }

  // ----- The conversation plan -----

  predicate IsSnapshot(m: Message) {
    Strip(m.role) == "system" && "Strategic Snapshot:" <= m.content
  }

  /** The first snapshot strictly between the first and the last message, from position `i` on. */
  function FindSnapshot(ms: seq<Message>, i: nat): (r: Option<nat>)
    ensures r.Some? ==> i <= r.value < |ms| - 1
    decreases |ms| - i
  {
    if i >= |ms| - 1 then None
    else if IsSnapshot(ms[i]) then Some(i)
    else FindSnapshot(ms, i + 1)
  }

  lemma {:induction false} FoundSnapshotIsFirst(ms: seq<Message>, i: nat)
    ensures var r := FindSnapshot(ms, i);
            && (r.Some? ==> IsSnapshot(ms[r.value]))
            && (forall j | i <= j < (if r.Some? then r.value else |ms| - 1) :: !IsSnapshot(ms[j]))
    decreases |ms| - i
  {
    if i < |ms| - 1 && !IsSnapshot(ms[i]) {
      FoundSnapshotIsFirst(ms, i + 1);
    }
  }

  /** Everything between the first and the last message except the snapshot. */
  function History(ms: seq<Message>): seq<Message>
    requires |ms| >= 2
  {
    var at := FindSnapshot(ms, 1);
    if at.Some? then ms[1..at.value] + ms[at.value + 1..|ms| - 1] else ms[1..|ms| - 1]
  }

  /** The history is the middle in order, without the first snapshot. */
  lemma HistoryMeans(ms: seq<Message>, i: nat)
    requires |ms| >= 2
    ensures FindSnapshot(ms, 1) == None ==>
              |History(ms)| == |ms| - 2 && (i < |ms| - 2 ==> History(ms)[i] == ms[i + 1])
    ensures FindSnapshot(ms, 1) != None ==>
              |History(ms)| == |ms| - 3
              && (i < |ms| - 3 ==> History(ms)[i] == ms[if i + 1 < FindSnapshot(ms, 1).value then i + 1 else i + 2])
  {
  }

  /** What truncation takes for a snapshot. */
  lemma SnapshotIff(m: Message)
    ensures IsSnapshot(m) <==>
              Strip(m.role) == "system" && |m.content| >= 19 && m.content[..19] == "Strategic Snapshot:"
  {
  }

  /** The kept part of `h` from position `i` on, in its original order. */
  ghost function KeptFrom(h: seq<Message>, keep: seq<bool>, i: nat): seq<Message>
    requires |keep| == |h| && i <= |h|
    decreases |h| - i
  {
    if i == |h| then [] else (if keep[i] then [h[i]] else []) + KeptFrom(h, keep, i + 1)
  }

  /** The first message, what is kept of the middle, and a last message. */
  function Around(first: Message, snapshot: seq<Message>, middle: seq<Message>, last: Message): seq<Message> {
    [first] + snapshot + middle + [last]
  }

  datatype Plan = Plan(snapshot: seq<Message>, keep: seq<bool>, user: Message)

  ghost function Conversation(ms: seq<Message>, p: Plan): seq<Message>
    requires |ms| >= 2 && |p.keep| == |History(ms)|
  {
    Around(ms[0], p.snapshot, KeptFrom(History(ms), p.keep, 0), p.user)
  }

  ghost predicate SnapshotChosen(ms: seq<Message>, budget: int, snapshot: seq<Message>)
    requires |ms| >= 2
  {
    var first, user, at := ms[0], ms[|ms| - 1], FindSnapshot(ms, 1);
    if at.None? then snapshot == []
    else
      var whole := ms[at.value];
      if TokenCount([first, whole, user]) <= budget then snapshot == [whole]
      else if Fits([first, user], whole.(content := ""), budget) then
        exists k :: LastFitting(whole, [first, user], budget, k) && snapshot == [Shortened(whole, k)]
      else snapshot == []
  }

  /** Newest first, a history message is kept exactly when it still fits with those kept after it. */
  ghost predicate KeepsNewest(ms: seq<Message>, budget: int, snapshot: seq<Message>, keep: seq<bool>, from: nat)
    requires |ms| >= 2
  {
    && |keep| == |History(ms)| && from <= |keep|
    && forall i | from <= i < |keep| :: keep[i] <==> StillFits(ms, budget, snapshot, keep, i)
  }

  /** Message `i` of the history fits together with those kept after it. */
  ghost predicate StillFits(ms: seq<Message>, budget: int, snapshot: seq<Message>, keep: seq<bool>, i: nat)
    requires |ms| >= 2 && |keep| == |History(ms)| && i < |keep|
  {
    var h := History(ms);
    TokenCount(Around(ms[0], snapshot, [h[i]] + KeptFrom(h, keep, i + 1), ms[|ms| - 1])) <= budget
  }

  ghost predicate UserChosen(last: Message, budget: int, kept: seq<Message>, user: Message) {
    if TokenCount(kept + [last]) <= budget then user == last
    else if Fits(kept, last.(content := ""), budget) then
      exists k :: LastFitting(last, kept, budget, k) && user == Shortened(last, k)
    else user == last
  }

  ghost predicate IsPlan(ms: seq<Message>, budget: int, p: Plan)
    requires |ms| >= 2
  {
    && SnapshotChosen(ms, budget, p.snapshot)
    && KeepsNewest(ms, budget, p.snapshot, p.keep, 0)
    && UserChosen(ms[|ms| - 1], budget, [ms[0]] + p.snapshot + KeptFrom(History(ms), p.keep, 0), p.user)
  }

  // ----- What every plan guarantees -----

  lemma {:induction false} KeptFromAgrees(h: seq<Message>, a: seq<bool>, b: seq<bool>, i: nat)
    requires |a| == |b| == |h| && i <= |h|
    requires forall j | i <= j < |h| :: a[j] == b[j]
    ensures KeptFrom(h, a, i) == KeptFrom(h, b, i)
    decreases |h| - i
  {
    if i < |h| {
      KeptFromAgrees(h, a, b, i + 1);
    }
  }

  /** `kept` are the marked messages of `h` from `i` on, in their order; `at` are their positions. */
  ghost predicate PickedAt(h: seq<Message>, keep: seq<bool>, i: nat, kept: seq<Message>, at: seq<nat>)
    requires |keep| == |h|
  {
    && |at| == |kept|
    && (forall k | 0 <= k < |at| :: i <= at[k] < |h| && keep[at[k]] && kept[k] == h[at[k]])
    && (forall k, l | 0 <= k < l < |at| :: at[k] < at[l])
    && (forall j | i <= j < |h| && keep[j] :: j in at)
  }

  lemma PickedOneMore(h: seq<Message>, keep: seq<bool>, i: nat, kept: seq<Message>, at: seq<nat>)
    requires |keep| == |h| && i < |h| && keep[i] && PickedAt(h, keep, i + 1, kept, at)
    ensures PickedAt(h, keep, i, [h[i]] + kept, [i] + at)
  {
    var all, more := [i] + at, [h[i]] + kept;
    forall k | 0 <= k < |all| ensures i <= all[k] < |h| && keep[all[k]] && more[k] == h[all[k]] {
      if k > 0 {
        assert all[k] == at[k - 1] && more[k] == kept[k - 1];
      }
    }
    forall j | i <= j < |h| && keep[j] ensures j in all {
      assert j > i ==> j in at;
    }
  }

  lemma PickedSkipsOne(h: seq<Message>, keep: seq<bool>, i: nat, kept: seq<Message>, at: seq<nat>)
    requires |keep| == |h| && i < |h| && !keep[i] && PickedAt(h, keep, i + 1, kept, at)
    ensures PickedAt(h, keep, i, kept, at)
  {
  }

  /** What is kept is exactly the marked messages, in their order. */
  lemma {:induction false} KeptInOrder(h: seq<Message>, keep: seq<bool>, i: nat) returns (at: seq<nat>)
    requires |keep| == |h| && i <= |h|
    ensures PickedAt(h, keep, i, KeptFrom(h, keep, i), at)
    decreases |h| - i
  {
    if i == |h| {
      at := [];
    } else {
      at := KeptInOrder(h, keep, i + 1);
      var kept := KeptFrom(h, keep, i + 1);
      if keep[i] {
        PickedOneMore(h, keep, i, kept, at);
        at := [i] + at;
      } else {
        PickedSkipsOne(h, keep, i, kept, at);
        assert [] + kept == kept;
      }
    }
  }

  lemma {:induction false} KeptFromShrinks(h: seq<Message>, keep: seq<bool>, i: nat, j: nat)
    requires |keep| == |h| && i <= j <= |h|
    ensures Tokens(KeptFrom(h, keep, j)) <= Tokens(KeptFrom(h, keep, i))
    decreases j - i
  {
    if i < j {
      KeptFromShrinks(h, keep, i + 1, j);
      TokensConcat(if keep[i] then [h[i]] else [], KeptFrom(h, keep, i + 1));
    }
  }

  lemma {:induction false} OldestKept(h: seq<Message>, keep: seq<bool>, i: nat) returns (n: nat)
    requires |keep| == |h| && i <= |h| && KeptFrom(h, keep, i) != []
    ensures i <= n < |h| && keep[n] && KeptFrom(h, keep, i) == [h[n]] + KeptFrom(h, keep, n + 1)
    decreases |h| - i
  {
    if keep[i] {
      n := i;
    } else {
      n := OldestKept(h, keep, i + 1);
    }
  }

  lemma AroundCost(first: Message, snapshot: seq<Message>, middle: seq<Message>, last: Message)
    ensures Tokens(Around(first, snapshot, middle, last))
         == Cost(first) + Tokens(snapshot) + Tokens(middle) + Cost(last)
  {
    TokensConcat([first] + snapshot + middle, [last]);
    TokensConcat([first] + snapshot, middle);
    TokensConcat([first], snapshot);
    TokensSingle(first);
    TokensSingle(last);
  }

  lemma AroundOneMore(first: Message, snapshot: seq<Message>, m: Message, middle: seq<Message>, last: Message)
    ensures Tokens(Around(first, snapshot, [m] + middle, last))
         == Cost(first) + Tokens(snapshot) + Cost(m) + Tokens(middle) + Cost(last)
  {
    AroundCost(first, snapshot, [m] + middle, last);
    TokensConcat([m], middle);
    TokensSingle(m);
  }

  lemma ThreeCost(a: Message, b: Message, c: Message)
    ensures Tokens([a, b]) == Cost(a) + Cost(b)
    ensures Tokens([a, b, c]) == Cost(a) + Cost(b) + Cost(c)
    ensures Tokens([a, b] + [c]) == Cost(a) + Cost(b) + Cost(c)
  {
    TokensConcat([a], [b]);
    TokensConcat([a, b], [c]);
    TokensSingle(a);
    TokensSingle(b);
    TokensSingle(c);
    assert [a] + [b] == [a, b] && [a, b] + [c] == [a, b, c];
  }

  /** A chosen snapshot fits together with the first and the last message. */
  lemma SnapshotFits(ms: seq<Message>, budget: int, snapshot: seq<Message>)
    requires |ms| >= 2 && SnapshotChosen(ms, budget, snapshot) && snapshot != []
    ensures Cost(ms[0]) + Tokens(snapshot) + Cost(ms[|ms| - 1]) <= budget
  {
    var first, user := ms[0], ms[|ms| - 1];
    var at := FindSnapshot(ms, 1);
    var whole := ms[at.value];
    TokensSingle(snapshot[0]);
    assert snapshot == [snapshot[0]];
    ThreeCost(first, whole, user);
    ThreeCost(first, user, snapshot[0]);
    if TokenCount([first, whole, user]) > budget {
      var k :| LastFitting(whole, [first, user], budget, k) && snapshot == [Shortened(whole, k)];
      assert CutFits(whole, [first, user], budget, k);
    }
  }

  /** A snapshot that fits between the two ends is kept whole. */
  lemma SnapshotKeptWhole(ms: seq<Message>, budget: int, snapshot: seq<Message>, at: nat)
    requires |ms| >= 2 && SnapshotChosen(ms, budget, snapshot) && FindSnapshot(ms, 1) == Some(at)
    requires budget >= 1 && Cost(ms[0]) + Cost(ms[at]) + Cost(ms[|ms| - 1]) <= budget
    ensures snapshot == [ms[at]]
  {
    ThreeCost(ms[0], ms[at], ms[|ms| - 1]);
  }

  /** One that does not is shortened exactly when an empty one fits, and dropped otherwise. */
  lemma SnapshotShortenedIff(ms: seq<Message>, budget: int, snapshot: seq<Message>, at: nat)
    requires |ms| >= 2 && SnapshotChosen(ms, budget, snapshot) && FindSnapshot(ms, 1) == Some(at)
    requires budget >= 1 && Cost(ms[0]) + Cost(ms[at]) + Cost(ms[|ms| - 1]) > budget
    ensures snapshot != [] <==> Cost(ms[0]) + Cost(ms[at].(content := "")) + Cost(ms[|ms| - 1]) <= budget
    ensures snapshot != [] ==> |snapshot| == 1 && snapshot[0].role == ms[at].role
  {
    ThreeCost(ms[0], ms[at], ms[|ms| - 1]);
    ThreeCost(ms[0], ms[|ms| - 1], ms[at].(content := ""));
    ShortenedCase(ms, budget, snapshot, at);
  }

  lemma ShortenedCase(ms: seq<Message>, budget: int, snapshot: seq<Message>, at: nat)
    requires |ms| >= 2 && SnapshotChosen(ms, budget, snapshot) && FindSnapshot(ms, 1) == Some(at)
    requires TokenCount([ms[0], ms[at], ms[|ms| - 1]]) > budget
    ensures snapshot != [] <==> Fits([ms[0], ms[|ms| - 1]], ms[at].(content := ""), budget)
    ensures snapshot != [] ==> |snapshot| == 1 && snapshot[0].role == ms[at].role
  {
    if Fits([ms[0], ms[|ms| - 1]], ms[at].(content := ""), budget) {
      var k :| LastFitting(ms[at], [ms[0], ms[|ms| - 1]], budget, k) && snapshot == [Shortened(ms[at], k)];
    }
  }

  lemma KeptHistoryFits(ms: seq<Message>, budget: int, snapshot: seq<Message>, keep: seq<bool>)
    requires |ms| >= 2 && KeepsNewest(ms, budget, snapshot, keep, 0)
    requires KeptFrom(History(ms), keep, 0) != []
    ensures TokenCount(Around(ms[0], snapshot, KeptFrom(History(ms), keep, 0), ms[|ms| - 1])) <= budget
  {
    var n := OldestKept(History(ms), keep, 0);
  }

  /** Anything kept from the middle leaves room for the whole user message. */
  lemma MiddleMeansRoom(ms: seq<Message>, budget: int, p: Plan)
    requires |ms| >= 2 && IsPlan(ms, budget, p)
    requires p.snapshot != [] || KeptFrom(History(ms), p.keep, 0) != []
    ensures TokenCount(Around(ms[0], p.snapshot, KeptFrom(History(ms), p.keep, 0), ms[|ms| - 1])) <= budget
  {
    if KeptFrom(History(ms), p.keep, 0) != [] {
      KeptHistoryFits(ms, budget, p.snapshot, p.keep);
    } else {
      SnapshotFits(ms, budget, p.snapshot);
      AroundCost(ms[0], p.snapshot, [], ms[|ms| - 1]);
    }
  }

  /** The user message is shortened only when nothing from the middle was kept. */
  lemma UserShortenedLast(ms: seq<Message>, budget: int, p: Plan)
    requires |ms| >= 2 && IsPlan(ms, budget, p)
    ensures p.user != ms[|ms| - 1] ==> Conversation(ms, p) == [ms[0], p.user]
  {
    if p.snapshot != [] || KeptFrom(History(ms), p.keep, 0) != [] {
      MiddleMeansRoom(ms, budget, p);
    }
  }

  /** Truncation meets the budget exactly when the first message and an empty last one do;
      otherwise those two are returned untouched. */
  lemma FitsIff(ms: seq<Message>, budget: int, p: Plan)
    requires |ms| >= 2 && IsPlan(ms, budget, p)
    ensures TokenCount(Conversation(ms, p)) <= budget
       <==> TokenCount([ms[0], ms[|ms| - 1].(content := "")]) <= budget
    ensures TokenCount(Conversation(ms, p)) > budget ==> Conversation(ms, p) == [ms[0], ms[|ms| - 1]]
  {
    if p.snapshot != [] || KeptFrom(History(ms), p.keep, 0) != [] {
      MiddleMeansRoom(ms, budget, p);
      FittingEnds(ms[0], p.snapshot, KeptFrom(History(ms), p.keep, 0), ms[|ms| - 1], budget);
    } else {
      assert [ms[0]] + p.snapshot + KeptFrom(History(ms), p.keep, 0) == [ms[0]];
      assert Conversation(ms, p) == [ms[0], p.user];
      LastAlone(ms[0], ms[|ms| - 1], budget, p.user);
    }
  }

  lemma FittingEnds(first: Message, snapshot: seq<Message>, middle: seq<Message>, last: Message, budget: int)
    requires TokenCount(Around(first, snapshot, middle, last)) <= budget
    ensures TokenCount([first, last.(content := "")]) <= budget
  {
    var all := Around(first, snapshot, middle, last);
    assert all[0] == first && all[|all| - 1] == last;
    EndsCost(all, budget);
  }

  lemma LastAlone(first: Message, last: Message, budget: int, user: Message)
    requires UserChosen(last, budget, [first], user)
    ensures TokenCount([first, user]) <= budget <==> TokenCount([first, last.(content := "")]) <= budget
    ensures TokenCount([first, user]) > budget ==> user == last
  {
    assert [first] + [last] == [first, last] && [first] + [user] == [first, user];
    assert [first] + [last.(content := "")] == [first, last.(content := "")];
    if TokenCount([first, last]) <= budget {
      EndsCost([first, last], budget);
    } else if Fits([first], last.(content := ""), budget) {
      var k :| LastFitting(last, [first], budget, k) && user == Shortened(last, k);
      assert CutFits(last, [first], budget, k);
    }
  }

  /** A conversation within budget leaves room for its two ends. */
  lemma EndsCost(ms: seq<Message>, budget: int)
    requires |ms| >= 2 && TokenCount(ms) <= budget
    ensures TokenCount([ms[0], ms[|ms| - 1].(content := "")]) <= budget
  {
    var last := ms[|ms| - 1];
    assert ms == Around(ms[0], [], ms[1..|ms| - 1], last);
    AroundCost(ms[0], [], ms[1..|ms| - 1], last);
    ThreeCost(ms[0], last.(content := ""), last);
  }

  /** When the user message is whole, no dropped history message can be put back within the budget. */
  lemma NothingCanBePutBack(ms: seq<Message>, budget: int, p: Plan, i: nat)
    requires |ms| >= 2 && IsPlan(ms, budget, p) && p.user == ms[|ms| - 1]
    requires i < |p.keep| && !p.keep[i]
    ensures Tokens(Conversation(ms, p)) + Cost(History(ms)[i]) > budget
  {
    var h := History(ms);
    KeptFromShrinks(h, p.keep, 0, i + 1);
    AroundCost(ms[0], p.snapshot, KeptFrom(h, p.keep, 0), p.user);
    AroundOneMore(ms[0], p.snapshot, h[i], KeptFrom(h, p.keep, i + 1), p.user);
  }

  /** Recency wins: at the newest message where any fitting choice differs, the plan keeps it. */
  lemma NewestFirst(ms: seq<Message>, budget: int, p: Plan, other: seq<bool>, i: nat)
    requires |ms| >= 2 && IsPlan(ms, budget, p)
    requires |other| == |p.keep| && i < |other| && other[i] != p.keep[i]
    requires forall j | i < j < |other| :: other[j] == p.keep[j]
    ensures TokenCount(Around(ms[0], p.snapshot, KeptFrom(History(ms), other, 0), ms[|ms| - 1])) <= budget
        ==> p.keep[i]
  {
    if other[i] && TokenCount(Around(ms[0], p.snapshot, KeptFrom(History(ms), other, 0), ms[|ms| - 1])) <= budget {
      OtherFits(ms, budget, p.snapshot, p.keep, other, i);
    }
  }

  lemma OtherFits(ms: seq<Message>, budget: int, snapshot: seq<Message>, keep: seq<bool>, other: seq<bool>, i: nat)
    requires |ms| >= 2 && |other| == |keep| == |History(ms)| && i < |other| && other[i]
    requires forall j | i < j < |other| :: other[j] == keep[j]
    requires TokenCount(Around(ms[0], snapshot, KeptFrom(History(ms), other, 0), ms[|ms| - 1])) <= budget
    ensures StillFits(ms, budget, snapshot, keep, i)
  {
    var h := History(ms);
    KeptFromAgrees(h, other, keep, i + 1);
    KeptFromShrinks(h, other, 0, i);
    assert KeptFrom(h, other, i) == [h[i]] + KeptFrom(h, keep, i + 1);
    AroundCost(ms[0], snapshot, KeptFrom(h, other, 0), ms[|ms| - 1]);
    AroundCost(ms[0], snapshot, KeptFrom(h, other, i), ms[|ms| - 1]);
  }

  // ----- Building the message list -----

  datatype MemoryEntry = NotADict | Entry(role: string, content: Option<string>, text: Option<string>)

  function OnlyEntries(memory: seq<MemoryEntry>): (r: seq<MemoryEntry>)
    ensures forall e | e in r :: e.Entry?
  {
    if memory == [] then []
    else OnlyEntries(memory[..|memory| - 1])
         + if memory[|memory| - 1].Entry? then [memory[|memory| - 1]] else []
  }

  function EntryText(e: MemoryEntry): string
    requires e.Entry?
  {
    if e.content.Some? then e.content.value else if e.text.Some? then e.text.value else ""
  }

  function HistoryMessages(memory: seq<MemoryEntry>): seq<Message> {
    if memory == [] then []
    else
      var e := memory[|memory| - 1];
      HistoryMessages(memory[..|memory| - 1])
      + if e.Entry? && Strip(e.role) != "" then [Message(Strip(e.role), EntryText(e))] else []
  }

  function Assembled(systemPrompt: string, user: string, memory: seq<MemoryEntry>,
                     maxMessages: int, snapshot: string): seq<Message>
  {
    [Message("system", systemPrompt)]
    + (if Strip(snapshot) != "" then [Message("system", "Strategic Snapshot: " + Strip(snapshot))] else [])
    + HistoryMessages(Newest(OnlyEntries(memory), Max(maxMessages, 0)))
    + [Message("user", user)]
  }

  // ----- What the assembled conversation says -----

  /** How many dictionaries the memory holds after position `i`. */
  ghost function EntriesAfter(memory: seq<MemoryEntry>, i: nat): nat {
    if |memory| <= i + 1 then 0
    else EntriesAfter(memory[..|memory| - 1], i) + if memory[|memory| - 1].Entry? then 1 else 0
  }

  /** The entry as a message: its stripped role, and its content, or else its text, or else nothing. */
  ghost predicate Says(m: Message, e: MemoryEntry)
    requires e.Entry?
  {
    && m.role == Strip(e.role)
    && (e.content.Some? ==> m.content == e.content.value)
    && (e.content.None? && e.text.Some? ==> m.content == e.text.value)
    && (e.content.None? && e.text.None? ==> m.content == "")
  }

  /** The history holds, in memory order, one message for each of the newest `limit` dictionaries that has
      a role; `at` are their positions. */
  ghost predicate RemembersAt(memory: seq<MemoryEntry>, limit: int, history: seq<Message>, at: seq<nat>) {
    && |at| == |history|
    && (forall k, l | 0 <= k < l < |at| :: at[k] < at[l])
    && (forall i: nat :: i in at <==>
          i < |memory| && memory[i].Entry? && Strip(memory[i].role) != "" && EntriesAfter(memory, i) < limit)
    && forall k | 0 <= k < |at| :: at[k] < |memory| && memory[at[k]].Entry? && Says(history[k], memory[at[k]])
  }

  /** Content comes before text, and text before nothing. */
  lemma EntrySays(e: MemoryEntry)
    requires e.Entry?
    ensures Says(Message(Strip(e.role), EntryText(e)), e)
  {
  }

  lemma NewestEntries(memory: seq<MemoryEntry>, limit: nat)
    requires memory != []
    ensures var n := |memory| - 1;
            var last, earlier := memory[n], memory[..n];
            Newest(OnlyEntries(memory), limit) ==
              if last.NotADict? then Newest(OnlyEntries(earlier), limit)
              else if limit == 0 then []
              else Newest(OnlyEntries(earlier), limit - 1) + [last]
  {
    var n := |memory| - 1;
    if memory[n].Entry? && limit > 0 {
      NewestAfterAppend(OnlyEntries(memory[..n]), memory[n], limit);
    } else if memory[n].NotADict? {
      assert OnlyEntries(memory[..n]) + [] == OnlyEntries(memory[..n]);
    }
  }

  lemma NothingRemembered(memory: seq<MemoryEntry>, limit: int)
    requires memory == [] || limit <= 0
    ensures RemembersAt(memory, limit, [], [])
  {
  }

  lemma OneEntryBack(memory: seq<MemoryEntry>, i: nat)
    requires memory != []
    ensures var n := |memory| - 1;
            EntriesAfter(memory, i) ==
              if i < n then EntriesAfter(memory[..n], i) + (if memory[n].Entry? then 1 else 0) else 0
  {
  }

  lemma RemembersBeforeNothing(memory: seq<MemoryEntry>, limit: int, history: seq<Message>, at: seq<nat>)
    requires memory != [] && memory[|memory| - 1].NotADict? && RemembersAt(memory[..|memory| - 1], limit, history, at)
    ensures RemembersAt(memory, limit, history, at)
  {
    var earlier := memory[..|memory| - 1];
    forall i: nat
      ensures i in at <==> i < |memory| && memory[i].Entry? && Strip(memory[i].role) != "" && EntriesAfter(memory, i) < limit
    {
      OneEntryBack(memory, i);
      assert i < |earlier| ==> earlier[i] == memory[i];
    }
    forall k | 0 <= k < |at| ensures at[k] < |memory| && memory[at[k]].Entry? && Says(history[k], memory[at[k]]) {
      assert earlier[at[k]] == memory[at[k]];
    }
  }

  lemma RemembersOneMore(memory: seq<MemoryEntry>, limit: nat, history: seq<Message>, at: seq<nat>, m: Message)
    requires memory != [] && limit > 0 && memory[|memory| - 1].Entry? && Says(m, memory[|memory| - 1])
    requires RemembersAt(memory[..|memory| - 1], limit - 1, history, at)
    ensures var n := |memory| - 1;
            if Strip(memory[n].role) != "" then RemembersAt(memory, limit, history + [m], at + [n])
            else RemembersAt(memory, limit, history, at)
  {
    var n := |memory| - 1;
    var earlier, more := memory[..n], Strip(memory[n].role) != "";
    var all := if more then at + [n] else at;
    forall i: nat
      ensures i in all <==> i < |memory| && memory[i].Entry? && Strip(memory[i].role) != "" && EntriesAfter(memory, i) < limit
    {
      OneEntryBack(memory, i);
      assert i < n ==> earlier[i] == memory[i];
      assert i in all <==> i in at || (more && i == n);
    }
    forall k | 0 <= k < |at| ensures at[k] < n && memory[at[k]].Entry? && Says(history[k], memory[at[k]]) {
      assert earlier[at[k]] == memory[at[k]];
    }
  }

  lemma HistoryOneMore(recent: seq<MemoryEntry>, e: MemoryEntry)
    requires e.Entry?
    ensures HistoryMessages(recent + [e]) ==
              if Strip(e.role) != "" then HistoryMessages(recent) + [Message(Strip(e.role), EntryText(e))]
              else HistoryMessages(recent)
  {
    assert (recent + [e])[..|recent|] == recent;
  }

  function Recalled(memory: seq<MemoryEntry>, limit: nat): seq<Message> {
    HistoryMessages(Newest(OnlyEntries(memory), limit))
  }

  /** One entry more of the memory, under one more of the limit if it is a dictionary. */
  lemma RecalledOneMore(memory: seq<MemoryEntry>, limit: nat)
    requires memory != [] && limit > 0
    ensures var n := |memory| - 1;
            Recalled(memory, limit) ==
              if memory[n].NotADict? then Recalled(memory[..n], limit)
              else if Strip(memory[n].role) == "" then Recalled(memory[..n], limit - 1)
              else Recalled(memory[..n], limit - 1) + [Message(Strip(memory[n].role), EntryText(memory[n]))]
  {
    var n := |memory| - 1;
    NewestEntries(memory, limit);
    if memory[n].Entry? {
      HistoryOneMore(Newest(OnlyEntries(memory[..n]), limit - 1), memory[n]);
    }
  }

  ghost predicate RecalledAt(memory: seq<MemoryEntry>, limit: nat, at: seq<nat>) {
    RemembersAt(memory, limit, Recalled(memory, limit), at)
  }

  lemma RecallsPastNothing(memory: seq<MemoryEntry>, limit: nat, at: seq<nat>)
    requires memory != [] && limit > 0 && memory[|memory| - 1].NotADict? && RecalledAt(memory[..|memory| - 1], limit, at)
    ensures RecalledAt(memory, limit, at)
  {
    RecalledOneMore(memory, limit);
    RemembersBeforeNothing(memory, limit, Recalled(memory[..|memory| - 1], limit), at);
  }

  lemma RecallsOneMore(memory: seq<MemoryEntry>, limit: nat, at: seq<nat>) returns (all: seq<nat>)
    requires memory != [] && limit > 0 && memory[|memory| - 1].Entry? && RecalledAt(memory[..|memory| - 1], limit - 1, at)
    ensures RecalledAt(memory, limit, all)
  {
    var n := |memory| - 1;
    var m := Message(Strip(memory[n].role), EntryText(memory[n]));
    RecalledOneMore(memory, limit);
    EntrySays(memory[n]);
    RemembersOneMore(memory, limit, Recalled(memory[..n], limit - 1), at, m);
    all := if Strip(memory[n].role) != "" then at + [n] else at;
  }

  lemma RecallsNothing(memory: seq<MemoryEntry>, limit: nat)
    requires memory == [] || limit == 0
    ensures RecalledAt(memory, limit, [])
  {
    NothingRemembered(memory, limit);
  }

  lemma {:induction false} HistoryRemembers(memory: seq<MemoryEntry>, limit: nat) returns (at: seq<nat>)
    ensures RecalledAt(memory, limit, at)
    decreases |memory|
  {
    if memory == [] || limit == 0 {
      RecallsNothing(memory, limit);
      at := [];
    } else if memory[|memory| - 1].NotADict? {
      at := HistoryRemembers(memory[..|memory| - 1], limit);
      RecallsPastNothing(memory, limit, at);
    } else {
      var before := HistoryRemembers(memory[..|memory| - 1], limit - 1);
      at := RecallsOneMore(memory, limit, before);
    }
  }

  /** The conversation before truncation: the system prompt, the snapshot if there is one, what the memory
      remembers, and the user message. */
  ghost predicate Assembles(ms: seq<Message>, systemPrompt: string, user: string, memory: seq<MemoryEntry>,
                            maxMessages: int, snapshot: string)
  {
    exists history: seq<Message>, at: seq<nat> ::
      && RemembersAt(memory, maxMessages, history, at)
      && ms == [Message("system", systemPrompt)]
             + (if Strip(snapshot) == "" then [] else [Message("system", "Strategic Snapshot: " + Strip(snapshot))])
             + history + [Message("user", user)]
  }

  lemma AssembledMeans(systemPrompt: string, user: string, memory: seq<MemoryEntry>, maxMessages: int, snapshot: string)
    ensures Assembles(Assembled(systemPrompt, user, memory, maxMessages, snapshot),
                      systemPrompt, user, memory, maxMessages, snapshot)
  {
    var limit := Max(maxMessages, 0);
    var at := HistoryRemembers(memory, limit);
    var history := Recalled(memory, limit);
    assert RemembersAt(memory, maxMessages, history, at);
  }

  // ----- The controller -----

  method CountTokens(ms: seq<Message>) returns (total: int)
    ensures total == TokenCount(ms)
  {
    total := 0;
    for i := 0 to |ms|
      invariant total == Tokens(ms[..i])
    {
      total := total + Cost(ms[i]);
      assert ms[..i + 1][..i] == ms[..i];
    }
    assert ms[..|ms|] == ms;
    total := Max(total, 1);
  }

  method TruncateContentToFit(m: Message, base: seq<Message>, budget: int) returns (best: Option<Message>)
    ensures best.None? <==> !Fits(base, m.(content := ""), budget)
    ensures best.Some? ==> Fits(base, best.value, budget)
    ensures best.Some? ==> exists k :: LastFitting(m, base, budget, k) && best.value == Shortened(m, k)
  {
    assert Shortened(m, 0) == m.(content := "");
    if m.content == "" {
      var total := CountTokens(base + [m]);
      assert m == Shortened(m, 0) && !CutFits(m, base, budget, 1);
      assert total <= budget ==> LastFitting(m, base, budget, 0);
      return if total <= budget then Some(m) else None;
    }
    var cut := SearchCut(m, base, budget);
    best := if cut.Some? then Some(Shortened(m, cut.value)) else None;
    assert cut.Some? ==> CutFits(m, base, budget, cut.value) && CutFits(m, base, budget, 0);
  }

  /** Binary search for the best cut, remembered by its position. */
  method SearchCut(m: Message, base: seq<Message>, budget: int) returns (best: Option<nat>)
    requires m.content != ""
    ensures best.None? ==> !CutFits(m, base, budget, 0)
    ensures best.Some? ==> LastFitting(m, base, budget, best.value)
  {
    var low, high := 0, |m.content|;
    ghost var gap := |m.content| + 1;
    best := None;
    while low <= high
      invariant 0 <= low <= gap == high + 1 <= |m.content| + 1
      invariant AllCutsFit(m, base, budget, low) && !CutFits(m, base, budget, gap)
      invariant best == if low == 0 then None else Some(low - 1)
      decreases high - low
    {
      var mid := (low + high) / 2;
      var ok := TryCut(m, base, budget, mid);
      if ok {
        AllBelowFit(m, base, budget, low, mid);
        best := Some(mid);
        low := mid + 1;
      } else {
        high, gap := mid - 1, mid;
      }
    }
    if best.Some? {
      LastBeforeGap(m, base, budget, best.value);
    }
  }

  ghost predicate AllCutsFit(m: Message, base: seq<Message>, budget: int, n: nat) {
    forall j | 0 <= j < n :: CutFits(m, base, budget, j)
  }

  lemma LastBeforeGap(m: Message, base: seq<Message>, budget: int, k: nat)
    requires AllCutsFit(m, base, budget, k + 1) && !CutFits(m, base, budget, k + 1)
    ensures LastFitting(m, base, budget, k)
  {
    assert CutFits(m, base, budget, k);
  }

  method TryCut(m: Message, base: seq<Message>, budget: int, mid: nat) returns (ok: bool)
    requires mid <= |m.content|
    ensures ok <==> CutFits(m, base, budget, mid)
  {
    var total := CountTokens(base + [Shortened(m, mid)]);
    ok := total <= budget;
  }

  lemma AllBelowFit(m: Message, base: seq<Message>, budget: int, low: nat, mid: nat)
    requires AllCutsFit(m, base, budget, low)
    requires CutFits(m, base, budget, mid) && (mid == |m.content| ==> low == mid)
    ensures AllCutsFit(m, base, budget, mid + 1)
  {
    forall j | low <= j < mid ensures CutFits(m, base, budget, j) {
      CutsAreMonotone(m, base, budget, j, mid);
    }
  }

  /** The plan is returned for the specification only. */
  method TruncateMessages(ms: seq<Message>, limit: int) returns (result: seq<Message>, ghost plan: Plan)
    ensures TokenCount(ms) <= Max(limit, 1) || ms == [] ==> result == ms
    ensures |ms| == 1 && TokenCount(ms) > Max(limit, 1) ==> result == ms + ms
    ensures |ms| >= 2 && TokenCount(ms) > Max(limit, 1) ==>
              && IsPlan(ms, Max(limit, 1), plan) && result == Conversation(ms, plan)
              && result == [ms[0]] + plan.snapshot + KeptFrom(History(ms), plan.keep, 0) + [plan.user]
  {
    plan := Plan([], [], Message("", ""));
    if ms == [] {
      return [], plan;
    }
    var budget := Max(limit, 1);
    var total := CountTokens(ms);
    if total <= budget {
      return ms, plan;
    }
    if |ms| == 1 {
      result := TruncateLoneMessage(ms[0], budget);
      return;
    }
    var first, user := ms[0], ms[|ms| - 1];
    var snapshot := ChooseSnapshot(ms, budget);
    ghost var keep;
    var kept;
    kept, keep := KeepHistory(ms, budget, snapshot);
    total := CountTokens(Around(first, snapshot, kept, user));
    if total > budget {
      var shorter := TruncateContentToFit(user, [first] + snapshot + kept, budget);
      if shorter.Some? {
        user := shorter.value;
      }
    }
    plan := Plan(snapshot, keep, user);
    result := Around(first, snapshot, kept, user);
  }

  /** A lone message over budget is its own first and last message, and comes back twice. */
  method TruncateLoneMessage(m: Message, budget: int) returns (result: seq<Message>)
    requires TokenCount([m]) > budget >= 1
    ensures result == [m, m]
  {
    var shorter := TruncateContentToFit(m, [m], budget);
    ghost var empty := m.(content := "");
    ThreeCost(m, empty, empty);
    TokensSingle(m);
    assert [m] + [empty] == [m, empty];
    assert shorter.None?;
    result := [m] + [m];
  }

  method ChooseSnapshot(ms: seq<Message>, budget: int) returns (snapshot: seq<Message>)
    requires |ms| >= 2
    ensures SnapshotChosen(ms, budget, snapshot)
  {
    var first, user := ms[0], ms[|ms| - 1];
    var at := 1;
    while at < |ms| - 1 && !IsSnapshot(ms[at])
      invariant 1 <= at <= |ms| - 1
      invariant FindSnapshot(ms, 1) == FindSnapshot(ms, at)
    {
      at := at + 1;
    }
    if at == |ms| - 1 {
      return [];
    }
    var total := CountTokens([first] + [ms[at]] + [user]);
    assert [first] + [ms[at]] + [user] == [first, ms[at], user];
    if total <= budget {
      return [ms[at]];
    }
    var shorter := TruncateContentToFit(ms[at], [first, user], budget);
    snapshot := if shorter.Some? then [shorter.value] else [];
  }

  method KeepHistory(ms: seq<Message>, budget: int, snapshot: seq<Message>)
    returns (kept: seq<Message>, ghost keep: seq<bool>)
    requires |ms| >= 2
    ensures KeepsNewest(ms, budget, snapshot, keep, 0)
    ensures kept == KeptFrom(History(ms), keep, 0)
  {
    var history := History(ms);
    keep := seq(|history|, _ => false);
    kept := [];
    var i := |history|;
    while i > 0
      invariant 0 <= i <= |history|
      invariant KeepsNewest(ms, budget, snapshot, keep, i)
      invariant kept == KeptFrom(history, keep, i)
    {
      i := i - 1;
      var fits := TryHistory(ms, budget, snapshot, kept, keep, i);
      KeepDecided(ms, budget, snapshot, keep, i);
      keep := keep[i := fits];
      if fits {
        kept := [history[i]] + kept;
      }
    }
  }

  method TryHistory(ms: seq<Message>, budget: int, snapshot: seq<Message>, kept: seq<Message>, ghost keep: seq<bool>, i: nat)
    returns (fits: bool)
    requires |ms| >= 2 && |keep| == |History(ms)| && i < |keep| && kept == KeptFrom(History(ms), keep, i + 1)
    ensures fits <==> StillFits(ms, budget, snapshot, keep, i)
  {
    var total := CountTokens(Around(ms[0], snapshot, [History(ms)[i]] + kept, ms[|ms| - 1]));
    fits := total <= budget;
  }

  lemma KeepDecided(ms: seq<Message>, budget: int, snapshot: seq<Message>, keep: seq<bool>, i: nat)
    requires |ms| >= 2 && i < |keep| && KeepsNewest(ms, budget, snapshot, keep, i + 1)
    ensures var keep' := keep[i := StillFits(ms, budget, snapshot, keep, i)];
            KeepsNewest(ms, budget, snapshot, keep', i)
            && KeptFrom(History(ms), keep', i + 1) == KeptFrom(History(ms), keep, i + 1)
  {
    var keep' := keep[i := StillFits(ms, budget, snapshot, keep, i)];
    forall j | i <= j < |keep|
      ensures StillFits(ms, budget, snapshot, keep', j) == StillFits(ms, budget, snapshot, keep, j)
    {
      SameTailFits(ms, budget, snapshot, keep', keep, j);
    }
    KeptFromAgrees(History(ms), keep', keep, i + 1);
  }

  lemma SameTailFits(ms: seq<Message>, budget: int, snapshot: seq<Message>, a: seq<bool>, b: seq<bool>, j: nat)
    requires |ms| >= 2 && |a| == |b| == |History(ms)| && j < |a|
    requires forall i | j < i < |a| :: a[i] == b[i]
    ensures StillFits(ms, budget, snapshot, a, j) == StillFits(ms, budget, snapshot, b, j)
  {
    KeptFromAgrees(History(ms), a, b, j + 1);
  }

  method Assemble(systemPrompt: string, userMessage: string, memory: seq<MemoryEntry>, maxMessages: int,
                  snapshot: string) returns (messages: seq<Message>)
    ensures messages == Assembled(systemPrompt, userMessage, memory, maxMessages, snapshot)
  {
    var entries := KeepEntries(memory);
    var kept := AppendHistory(Newest(entries, Max(maxMessages, 0)));
    var snapshotText := Strip(snapshot);
    var pinned := if snapshotText != "" then [Message("system", "Strategic Snapshot: " + snapshotText)] else [];
    messages := [Message("system", systemPrompt)] + pinned + kept + [Message("user", userMessage)];
  }

  method KeepEntries(memory: seq<MemoryEntry>) returns (entries: seq<MemoryEntry>)
    ensures entries == OnlyEntries(memory)
  {
    entries := [];
    for i := 0 to |memory|
      invariant entries == OnlyEntries(memory[..i])
    {
      assert memory[..i + 1][..i] == memory[..i];
      if memory[i].Entry? {
        entries := entries + [memory[i]];
      }
    }
    assert memory[..|memory|] == memory;
  }

  lemma HistoryExtends(recent: seq<MemoryEntry>, i: nat)
    requires i < |recent| && recent[i].Entry?
    ensures HistoryMessages(recent[..i + 1]) == HistoryMessages(recent[..i])
          + if Strip(recent[i].role) != "" then [Message(Strip(recent[i].role), EntryText(recent[i]))] else []
  {
    assert recent[..i + 1][..i] == recent[..i];
  }

  method AppendHistory(recent: seq<MemoryEntry>) returns (kept: seq<Message>)
    requires forall e | e in recent :: e.Entry?
    ensures kept == HistoryMessages(recent)
  {
    kept := [];
    for i := 0 to |recent|
      invariant kept == HistoryMessages(recent[..i])
    {
      HistoryExtends(recent, i);
      var role := Strip(recent[i].role);
      if role != "" {
        kept := kept + [Message(role, EntryText(recent[i]))];
      }
    }
    assert recent[..|recent|] == recent;
  }

  /** The whole conversation if it fits, otherwise its truncation; within budget exactly when the system
      prompt and an empty user message are.  Whatever is dropped, the system prompt stays first and the
      user speaks last.  `all` and `plan` are returned for the specification only. */
  method BuildMessages(systemPrompt: string, userMessage: string, memory: seq<MemoryEntry>, maxMessages: int,
                       snapshot: string, maxInputTokens: int, reserveOutputTokens: int)
    returns (messages: seq<Message>, ghost all: seq<Message>, ghost plan: Plan)
    ensures Assembles(all, systemPrompt, userMessage, memory, maxMessages, snapshot) && |all| >= 2
    ensures TokenCount(all) <= Max(maxInputTokens - reserveOutputTokens, 1) ==> messages == all
    ensures TokenCount(all) > Max(maxInputTokens - reserveOutputTokens, 1) ==>
              && IsPlan(all, Max(maxInputTokens - reserveOutputTokens, 1), plan)
              && messages == [all[0]] + plan.snapshot + KeptFrom(History(all), plan.keep, 0) + [plan.user]
    ensures var budget, first := Max(maxInputTokens - reserveOutputTokens, 1), Message("system", systemPrompt);
            && (TokenCount(messages) <= budget <==> TokenCount([first, Message("user", "")]) <= budget)
            && (TokenCount(messages) > budget ==> messages == [first, Message("user", userMessage)])
            && |messages| >= 2 && messages[0] == first && messages[|messages| - 1].role == "user"
  {
    messages := Assemble(systemPrompt, userMessage, memory, maxMessages, snapshot);
    AssembledMeans(systemPrompt, userMessage, memory, maxMessages, snapshot);
    all, plan := messages, Plan([], [], Message("", ""));
    var budget := Max(maxInputTokens - reserveOutputTokens, 1);
    var before := CountTokens(messages);
    assert |all| >= 2 && all[0] == Message("system", systemPrompt) && all[|all| - 1] == Message("user", userMessage);
    if before > budget {
      messages, plan := TruncateMessages(messages, budget);
      FitsIff(all, budget, plan);
      assert plan.user.role == "user";
    } else {
      EndsCost(all, budget);
    }
  }
}
