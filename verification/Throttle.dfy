/** Adaptive pacing of exchange requests (exchange_throttle.py): penalties and request slots. */
module Throttle {
  import opened Common

  // ---- The penalty of one identity ----

  /** A 429 doubles the interval, from twice the base up to the cap. */
  function Limited(p: Option<real>, base: real, cap: real): Option<real> {
    if base <= 0.0 || cap <= base then p
    else
      var current := p.GetOr(0.0);
      Some(Min(cap, if current < base then base * 2.0 else current * 2.0))
  }

  /** A success halves it, and clears it at the base. */
  function Succeeded(p: Option<real>, base: real): Option<real> {
    var current := p.GetOr(0.0);
    if current <= 0.0 then p
    else if current * 0.5 <= base then None
    else Some(current * 0.5)
  }

  function Interval(p: Option<real>, base: real): real {
    if base <= 0.0 then base else Max(base, p.GetOr(0.0))
  }

  /** The module's penalty dictionary. */
  class Penalties {
    var intervals: map<string, real>

    constructor ()
      ensures intervals == map[]
    {
      intervals := map[];
    }

    function Of(key: string): Option<real>
      reads this
    {
      if key in intervals then Some(intervals[key]) else None
    }

    method NoteRateLimited(key: string, base: real, cap: real)
      modifies this
      ensures Of(key) == Limited(old(Of(key)), base, cap)
      ensures forall other :: other != key ==> Of(other) == old(Of(other))
    {
      if base <= 0.0 || cap <= base {
        return;
      }
      var current := if key in intervals then intervals[key] else 0.0;
      var widened := if current < base then base * 2.0 else current * 2.0;
      intervals := intervals[key := Min(cap, widened)];
    }

    method NoteSuccess(key: string, base: real)
      modifies this
      ensures Of(key) == Succeeded(old(Of(key)), base)
      ensures forall other :: other != key ==> Of(other) == old(Of(other))
    {
      var current := if key in intervals then intervals[key] else 0.0;
      if current <= 0.0 {
        return;
      }
      var decayed := current * 0.5;
      if decayed <= base {
        intervals := intervals - {key};
      } else {
        intervals := intervals[key := decayed];
      }
    }

    method AdaptiveInterval(key: string, base: real) returns (interval: real)
      ensures interval == Interval(Of(key), base)
    {
      if base <= 0.0 {
        return base;
      }
      interval := Max(base, if key in intervals then intervals[key] else 0.0);
    }
  }

  datatype Response = RateLimited | Success

  function After(p: Option<real>, responses: seq<Response>, base: real, cap: real): Option<real> {
    if responses == [] then p
    else
      var earlier := After(p, responses[..|responses| - 1], base, cap);
      match responses[|responses| - 1]
      case RateLimited => Limited(earlier, base, cap)
      case Success => Succeeded(earlier, base)
  }

  predicate InBounds(p: Option<real>, base: real, cap: real) {
    p.Some? ==> base < p.value <= cap
  }

  /** After any responses a penalty is absent, or above the base and at most the cap. */
  lemma {:induction false} PenaltyStaysInBounds(p: Option<real>, responses: seq<Response>, base: real, cap: real)
    requires 0.0 < base < cap && InBounds(p, base, cap)
    ensures InBounds(After(p, responses, base, cap), base, cap)
    ensures base <= Interval(After(p, responses, base, cap), base) <= cap
  {
    if responses != [] {
      PenaltyStaysInBounds(p, responses[..|responses| - 1], base, cap);
    }
  }

  function Repeat(r: Response, k: nat): (responses: seq<Response>)
    ensures |responses| == k
  {
    if k == 0 then [] else Repeat(r, k - 1) + [r]
  }

  /** k straight 429s from rest leave exactly min(cap, base * 2^k). */
  lemma {:induction false} PenaltyAfterStraightLimits(k: nat, base: real, cap: real)
    requires 0.0 < base < cap && k > 0
    ensures After(None, Repeat(RateLimited, k), base, cap) == Some(Min(cap, Doubled(base, k)))
    ensures Doubled(base, k) > base
  {
    assert Repeat(RateLimited, k)[..k - 1] == Repeat(RateLimited, k - 1);
    if k > 1 {
      PenaltyAfterStraightLimits(k - 1, base, cap);
    }
  }

  /** From rest the interval is the base, after k straight 429s min(cap, base * 2^k); without a penalty range it stays the base. */
  lemma {:induction false} IntervalAfterStraightLimits(k: nat, base: real, cap: real)
    ensures var interval := Interval(After(None, Repeat(RateLimited, k), base, cap), base);
            if 0.0 < base < cap && k > 0 then interval == Min(cap, Doubled(base, k)) > base else interval == base
  {
    if k > 0 {
      if 0.0 < base < cap {
        PenaltyAfterStraightLimits(k, base, cap);
      } else {
        assert Repeat(RateLimited, k)[..k - 1] == Repeat(RateLimited, k - 1);
        IntervalAfterStraightLimits(k - 1, base, cap);
      }
    }
  }

  /** A penalty p is gone after j straight successes exactly when p <= base * 2^j, and until then it is p / 2^j. */
  lemma {:induction false} PenaltyAfterStraightSuccesses(p: real, j: nat, base: real, cap: real)
    requires 0.0 < base < p <= cap
    ensures ClearedBy(After(Some(p), Repeat(Success, j), base, cap), p, j, base)
  {
    if j > 0 {
      assert Repeat(Success, j)[..j - 1] == Repeat(Success, j - 1);
      var earlier := After(Some(p), Repeat(Success, j - 1), base, cap);
      assert After(Some(p), Repeat(Success, j), base, cap) == Succeeded(earlier, base);
      hide ClearedBy, Succeeded;
      PenaltyAfterStraightSuccesses(p, j - 1, base, cap);
      OneMoreSuccess(earlier, p, j, base);
    }
  }

  predicate ClearedBy(rest: Option<real>, p: real, j: nat, base: real) {
    && (rest.None? <==> p <= Doubled(base, j))
    && (rest.Some? ==> rest.value > base && Doubled(rest.value, j) == p)
  }

  lemma OneMoreSuccess(earlier: Option<real>, p: real, j: nat, base: real)
    requires j > 0 && base > 0.0 && ClearedBy(earlier, p, j - 1, base)
    ensures ClearedBy(Succeeded(earlier, base), p, j, base)
  {
    DoubledMonotone(0.0, base, j - 1);
    if earlier.Some? {
      DoubledHalf(earlier.value, j - 1);
      DoubledMonotone(earlier.value * 0.5, base, j);
      hide Doubled;
    }
  }

  lemma {:induction false} DoubledHalf(x: real, k: nat)
    ensures Doubled(x * 0.5, k + 1) == Doubled(x, k)
  {
    if k > 0 {
      DoubledHalf(x, k - 1);
    }
  }

  lemma {:induction false} DoubledMonotone(x: real, y: real, k: nat)
    ensures x <= y <==> Doubled(x, k) <= Doubled(y, k)
    ensures Doubled(0.0, k) == 0.0
  {
    if k > 0 {
      DoubledMonotone(x, y, k - 1);
    }
  }

  /** From the cap, the number of successes that clears the penalty is the least j with base * 2^j >= cap. */
  lemma CapClearsExactlyAtLog2(j: nat, base: real, cap: real)
    requires 0.0 < base < cap && j > 0 && Doubled(base, j - 1) < cap <= Doubled(base, j)
    ensures After(Some(cap), Repeat(Success, j), base, cap).None?
    ensures After(Some(cap), Repeat(Success, j - 1), base, cap).Some?
  {
    hide After, Repeat, Doubled;
    PenaltyAfterStraightSuccesses(cap, j, base, cap);
    PenaltyAfterStraightSuccesses(cap, j - 1, base, cap);
  }

  // ---- Request slots ----

  predicate Spaced(slots: seq<real>, base: real) {
    forall i :: 0 < i < |slots| ==> slots[i] - slots[i - 1] >= base
  }

  function CountIn(slots: seq<real>, lo: real, hi: real): nat {
    if slots == [] then 0
    else
      var last := slots[|slots| - 1];
      CountIn(slots[..|slots| - 1], lo, hi) + (if lo <= last <= hi then 1 else 0)
  }

  lemma {:induction false} CountUpTo(slots: seq<real>, base: real, lo: real, hi: real)
    requires base > 0.0 && Spaced(slots, base) && slots != []
    ensures slots[|slots| - 1] < lo ==> CountIn(slots, lo, hi) == 0
    ensures slots[|slots| - 1] >= lo ==> Times(base, CountIn(slots, lo, hi)) <= slots[|slots| - 1] - lo + base
  {
    var n := |slots|;
    var rest := slots[..n - 1];
    if n > 1 {
      assert slots[n - 1] - slots[n - 2] >= base && rest[n - 2] == slots[n - 2];
      assert Spaced(rest, base);
      CountUpTo(rest, base, lo, hi);
    } else {
      assert rest == [];
    }
  }

  lemma CountWithin(slots: seq<real>, lo: real, hi: real)
    requires slots != []
    ensures CountIn(slots, lo, hi) ==
            CountIn(slots[..|slots| - 1], lo, hi) + if lo <= slots[|slots| - 1] <= hi then 1 else 0
  {
  }

  /** A window of length w holds at most w / base + 1 requests, counted in multiples of the base. */
  lemma {:induction false} WindowCount(slots: seq<real>, base: real, lo: real, w: real)
    requires base > 0.0 && w >= 0.0 && Spaced(slots, base)
    ensures Times(base, CountIn(slots, lo, lo + w)) <= w + base
  {
    if slots != [] {
      var last := slots[|slots| - 1];
      hide CountIn, Times;
      if last > lo + w {
        SpacedPrefix(slots, base);
        WindowCount(slots[..|slots| - 1], base, lo, w);
        CountWithin(slots, lo, lo + w);
      } else {
        CountUpTo(slots, base, lo, lo + w);
        TimesNone(base);
      }
    }
  }

  lemma TimesNone(base: real)
    ensures Times(base, 0) == 0.0
  {
  }

  lemma SpacedPrefix(slots: seq<real>, base: real)
    requires Spaced(slots, base) && slots != []
    ensures Spaced(slots[..|slots| - 1], base)
  {
  }

  /** A window of length w holds at most w / base + 1 requests. */
  lemma WindowBound(slots: seq<real>, base: real, lo: real, w: real)
    requires base > 0.0 && w >= 0.0 && Spaced(slots, base)
    ensures base * (CountIn(slots, lo, lo + w) as real) <= w + base
  {
    hide CountIn, Times, Spaced;
    WindowCount(slots, base, lo, w);
    TimesIsProduct(base, CountIn(slots, lo, lo + w));
  }
}
