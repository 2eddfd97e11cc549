// Shared vocabulary: optional values and Python's bounded deque.
module Common {

  datatype Option<+T> = None | Some(value: T)

  function Max(a: int, b: int): int {
    if a < b then b else a
  }

  function Min(a: int, b: int): int {
    if a < b then a else b
  }

  /** The newest `cap` entries of `s`: what a `deque(s, maxlen=cap)` holds. */
  function Newest<T>(s: seq<T>, cap: nat): seq<T> {
    if |s| <= cap then s else s[|s| - cap..]
  }

  /** `some` are the newest of `all`, as many as there are but no more than `most`, in their order. */
  ghost predicate AreNewest<T>(some: seq<T>, all: seq<T>, most: int) {
    |some| == Min(Max(most, 0), |all|) && all[|all| - |some|..] == some
  }

  /** Appending to a bounded deque keeps it the newest part of the whole history. */
  lemma NewestAppend<T>(s: seq<T>, x: T, cap: nat)
    ensures Newest(Newest(s, cap) + [x], cap) == Newest(s + [x], cap)
  {
    if |s| > cap {
      assert (s[|s| - cap..] + [x])[1..] == (s + [x])[|s| + 1 - cap..];
    }
  }

  lemma NewestAfterAppend<T>(s: seq<T>, x: T, cap: nat)
    requires cap > 0
    ensures Newest(s + [x], cap) == Newest(s, cap - 1) + [x]
  {
  }

  lemma Regroup<T>(a: seq<T>, b: seq<T>, c: seq<T>)
    ensures (a + b) + c == a + (b + c)
  {
  }

  lemma MulLess(a: real, b: real, n: real)
    requires a < b && n > 0.0
    ensures a * n < b * n
  {
  }
}
