/** Input events sent to the emulator, and the adb channel that sends them.

    `adb_tap` and `adb_swipe` (main.py:46-67) shell out to
    `adb -s <device> shell input tap|swipe ...`. Here each call appends the
    event it would send to the channel's record of attempted events; whether
    the external tool accepted it is recorded beside it and never changes
    what is sent next (the source catches and logs every failure). */
module Events {

  /** `input tap x y`, or `input swipe x1 y1 x2 y2 duration` (duration in ms). */
  datatype Event =
    | Tap(x: int, y: int)
    | Swipe(x1: int, y1: int, x2: int, y2: int, duration: int)

  /** The default swipe duration of `adb_swipe` in milliseconds; every call site uses it. */
  const DefaultSwipeMs: int := 6000

  /** The same gesture drawn in the opposite direction. */
  function Reverse(e: Event): (r: Event)
    requires e.Swipe?
    ensures r.Swipe? && r.duration == e.duration
    ensures (r.x1, r.y1) == (e.x2, e.y2) && (r.x2, r.y2) == (e.x1, e.y1)
  {
    Swipe(e.x2, e.y2, e.x1, e.y1, e.duration)
  }

  /** Number of taps in a trace. */
  function TapCount(s: seq<Event>): (n: nat)
    ensures n <= |s|
  {
    if |s| == 0 then 0 else TapCount(s[..|s| - 1]) + (if s[|s| - 1].Tap? then 1 else 0)
  }

  /** Number of swipes in a trace. */
  function SwipeCount(s: seq<Event>): (n: nat)
    ensures n <= |s|
  {
    if |s| == 0 then 0 else SwipeCount(s[..|s| - 1]) + (if s[|s| - 1].Swipe? then 1 else 0)
  }

  predicate AllTaps(s: seq<Event>) {
    forall i | 0 <= i < |s| :: s[i].Tap?
  }

  predicate AllSwipes(s: seq<Event>) {
    forall i | 0 <= i < |s| :: s[i].Swipe?
  }

  /** Every event is either a tap or a swipe. */
  lemma {:induction false} CountsPartition(s: seq<Event>)
    ensures TapCount(s) + SwipeCount(s) == |s|
  {
    if |s| > 0 {
      CountsPartition(s[..|s| - 1]);
    }
  }

  lemma {:induction false} CountsAppend(a: seq<Event>, b: seq<Event>)
    ensures TapCount(a + b) == TapCount(a) + TapCount(b)
    ensures SwipeCount(a + b) == SwipeCount(a) + SwipeCount(b)
  {
    if |b| == 0 {
      assert a + b == a;
    } else {
      assert (a + b)[..|a + b| - 1] == a + b[..|b| - 1];
      CountsAppend(a, b[..|b| - 1]);
    }
  }

  lemma {:induction false} AllTapsCount(s: seq<Event>)
    requires AllTaps(s)
    ensures TapCount(s) == |s| && SwipeCount(s) == 0
  {
    if |s| > 0 {
      AllTapsCount(s[..|s| - 1]);
    }
  }

  lemma {:induction false} AllSwipesCount(s: seq<Event>)
    requires AllSwipes(s)
    ensures SwipeCount(s) == |s| && TapCount(s) == 0
  {
    if |s| > 0 {
      AllSwipesCount(s[..|s| - 1]);
    }
  }

  /** `s` emitted `n` times in a row: the trace of a counted `for` loop whose
      body emits `s`. Event `k` is event `k mod |s|` of the block. */
  function Repeat(s: seq<Event>, n: nat): (r: seq<Event>)
    ensures |r| == n * |s|
  {
    seq(n * |s|, k requires 0 <= k < n * |s| => s[k % |s|])
  }

  /** One more round of the loop appends one more copy of the block. */
  lemma RepeatSucc(s: seq<Event>, n: nat)
    ensures Repeat(s, n + 1) == Repeat(s, n) + s
  {
    var r := Repeat(s, n) + s;
    assert (n + 1) * |s| == n * |s| + |s|;
    forall k | n * |s| <= k < (n + 1) * |s|
      ensures Repeat(s, n + 1)[k] == r[k]
    {
      ModOfRemainder(k, |s|, n);
    }
  }

  /** The invariant step of a loop that appends the block to a trace. */
  lemma RepeatSnoc(s: seq<Event>, block: seq<Event>, n: nat)
    ensures s + Repeat(block, n) + block == s + Repeat(block, n + 1)
  {
    RepeatSucc(block, n);
  }

  lemma {:induction false} RepeatAdd(s: seq<Event>, m: nat, n: nat)
    ensures Repeat(s, m + n) == Repeat(s, m) + Repeat(s, n)
  {
    if n > 0 {
      RepeatAdd(s, m, n - 1);
      RepeatSucc(s, m + n - 1);
      RepeatSucc(s, n - 1);
    }
  }

  /** A loop of `n` rounds whose body is itself a loop of `m` rounds emits `s` `n * m` times. */
  lemma {:induction false} RepeatNested(s: seq<Event>, m: nat, n: nat)
    ensures Repeat(Repeat(s, m), n) == Repeat(s, n * m)
  {
    if n > 0 {
      RepeatNested(s, m, n - 1);
      RepeatSucc(Repeat(s, m), n - 1);
      RepeatAdd(s, (n - 1) * m, m);
      assert (n - 1) * m + m == n * m;
    }
  }

  lemma ModOfRemainder(k: int, d: int, q: int)
    requires d > 0 && q * d <= k < q * d + d
    ensures k % d == k - q * d && k / d == q
  {
    var a := q - k / d;
    assert a * d == k % d - (k - q * d);
    if a >= 1 {
    } else if a <= -1 {
    }
  }

  lemma {:induction false} RepeatCounts(s: seq<Event>, n: nat)
    ensures TapCount(Repeat(s, n)) == n * TapCount(s)
    ensures SwipeCount(Repeat(s, n)) == n * SwipeCount(s)
  {
    if n > 0 {
      RepeatCounts(s, n - 1);
      RepeatSucc(s, n - 1);
      CountsAppend(Repeat(s, n - 1), s);
      assert (n - 1) * TapCount(s) + TapCount(s) == n * TapCount(s);
      assert (n - 1) * SwipeCount(s) + SwipeCount(s) == n * SwipeCount(s);
    }
  }

  /** The channel to the emulator through `adb`. `rejects` stands for the
      external tool's answers: attempt number `i` fails (non-zero exit or
      exception) exactly when `i in rejects`. */
  class Device {
    const rejects: set<nat>
    /** Every event attempted so far, in order. */
    var sent: seq<Event>
    /** `outcomes[i]`: whether attempt `i` succeeded (what the log line reports). */
    var outcomes: seq<bool>

    ghost predicate Valid()
      reads this
    {
      && |outcomes| == |sent|
      && forall i | 0 <= i < |sent| :: outcomes[i] == (i !in rejects)
    }

    constructor (rejects: set<nat>)
      ensures Valid() && this.rejects == rejects
      ensures sent == [] && outcomes == []
    {
      this.rejects := rejects;
      sent, outcomes := [], [];
    }

    /** `adb_tap`: the tap is attempted whatever happened before; a failure is logged, never raised. */
    method Tap(x: int, y: int)
      requires Valid()
      modifies this
      ensures Valid()
      ensures sent == old(sent) + [Event.Tap(x, y)]
      ensures outcomes == old(outcomes) + [|old(sent)| !in rejects]
    {
      outcomes := outcomes + [|sent| !in rejects];
      sent := sent + [Event.Tap(x, y)];
    }

    /** `adb_swipe` with its default duration: likewise never raises. */
    method Swipe(x1: int, y1: int, x2: int, y2: int, duration: int := DefaultSwipeMs)
      requires Valid()
      modifies this
      ensures Valid()
      ensures sent == old(sent) + [Event.Swipe(x1, y1, x2, y2, duration)]
      ensures outcomes == old(outcomes) + [|old(sent)| !in rejects]
    {
      outcomes := outcomes + [|sent| !in rejects];
      sent := sent + [Event.Swipe(x1, y1, x2, y2, duration)];
    }
  }
}
