/** The arithmetic of one sliding window: which time stamps are kept, when a request is
    admitted, and what an admission does to the two facts the limiters rest on, "what was
    forgotten cannot matter" and "an interval never holds more than the maximum".
    Times are integers (nanoseconds or milliseconds, as the caller counts them). */
module SlidingWindow {

  type Time = int

  /** The stamps later than `cutoff`, in their order. */
  function After(stamps: seq<Time>, cutoff: Time): seq<Time> {
    if stamps == [] then []
    else
      var n := |stamps| - 1;
      if stamps[n] > cutoff then After(stamps[..n], cutoff) + [stamps[n]] else After(stamps[..n], cutoff)
  }

  /** How many stamps lie in the half-open interval [lo, hi). */
  function CountIn(stamps: seq<Time>, lo: Time, hi: Time): nat {
    if stamps == [] then 0
    else
      var n := |stamps| - 1;
      CountIn(stamps[..n], lo, hi) + if lo <= stamps[n] < hi then 1 else 0
  }

  datatype Admission = Admission(stamps: seq<Time>, ok: bool)

  /** One request at time `now` against the stored stamps. */
  function Admit(stamps: seq<Time>, now: Time, window: Time, max: int): Admission {
    var kept := After(stamps, now - window);
    if |kept| >= max then Admission(kept, false) else Admission(kept + [now], true)
  }

  lemma AfterSnoc(stamps: seq<Time>, x: Time, cutoff: Time)
    ensures After(stamps + [x], cutoff) == if x > cutoff then After(stamps, cutoff) + [x] else After(stamps, cutoff)
  {
    assert (stamps + [x])[..|stamps|] == stamps;
  }

  lemma AfterNext(stamps: seq<Time>, i: nat, cutoff: Time)
    requires i < |stamps|
    ensures After(stamps[..i + 1], cutoff)
            == if stamps[i] > cutoff then After(stamps[..i], cutoff) + [stamps[i]] else After(stamps[..i], cutoff)
  {
    assert stamps[..i + 1] == stamps[..i] + [stamps[i]];
    AfterSnoc(stamps[..i], stamps[i], cutoff);
  }

  /** What `After` means: exactly the late stamps survive, each as often as before, and in their
      order, since a filtered sequence is its filtered parts one behind the other. */
  lemma AfterIsFilter(stamps: seq<Time>, cutoff: Time)
    ensures forall t :: multiset(After(stamps, cutoff))[t] == if t > cutoff then multiset(stamps)[t] else 0
    ensures forall i | 0 <= i <= |stamps| :: After(stamps, cutoff) == After(stamps[..i], cutoff) + After(stamps[i..], cutoff)
  {
    AfterCounts(stamps, cutoff);
    hide After;
    forall i | 0 <= i <= |stamps| ensures After(stamps, cutoff) == After(stamps[..i], cutoff) + After(stamps[i..], cutoff) {
      AfterJoin(stamps[..i], stamps[i..], cutoff);
      assert stamps[..i] + stamps[i..] == stamps;
    }
  }

  lemma {:induction false} AfterCounts(stamps: seq<Time>, cutoff: Time)
    ensures forall t :: multiset(After(stamps, cutoff))[t] == if t > cutoff then multiset(stamps)[t] else 0
  {
    if stamps != [] {
      var n := |stamps| - 1;
      AfterCounts(stamps[..n], cutoff);
      assert stamps == stamps[..n] + [stamps[n]];
    }
  }

  lemma {:induction false} AfterJoin(a: seq<Time>, b: seq<Time>, cutoff: Time)
    ensures After(a + b, cutoff) == After(a, cutoff) + After(b, cutoff)
  {
    if b == [] {
      assert a + b == a;
    } else {
      var n := |b| - 1;
      AfterJoin(a, b[..n], cutoff);
      assert a + b == (a + b[..n]) + [b[n]] && b == b[..n] + [b[n]];
      AfterSnoc(a + b[..n], b[n], cutoff);
      AfterSnoc(b[..n], b[n], cutoff);
      hide After;
    }
  }

  /** An earlier, laxer filtering is absorbed by a later one. */
  lemma {:induction false} AfterAfter(stamps: seq<Time>, early: Time, late: Time)
    requires early <= late
    ensures After(After(stamps, early), late) == After(stamps, late)
  {
    if stamps != [] {
      var n := |stamps| - 1;
      AfterAfter(stamps[..n], early, late);
      if stamps[n] > early {
        AfterSnoc(After(stamps[..n], early), stamps[n], late);
      }
    }
  }

  lemma {:induction false} AfterShrinks(stamps: seq<Time>, early: Time, late: Time)
    requires early <= late
    ensures |After(stamps, late)| <= |After(stamps, early)|
  {
    if stamps != [] {
      AfterShrinks(stamps[..|stamps| - 1], early, late);
    }
  }

  lemma CountSnoc(stamps: seq<Time>, x: Time, lo: Time, hi: Time)
    ensures CountIn(stamps + [x], lo, hi) == CountIn(stamps, lo, hi) + if lo <= x < hi then 1 else 0
  {
    assert (stamps + [x])[..|stamps|] == stamps;
  }

  lemma {:induction false} CountWithinAfter(stamps: seq<Time>, lo: Time, hi: Time, cutoff: Time)
    requires cutoff < lo
    ensures CountIn(stamps, lo, hi) <= |After(stamps, cutoff)|
  {
    if stamps != [] {
      CountWithinAfter(stamps[..|stamps| - 1], lo, hi, cutoff);
    }
  }

  /** The log after a request: every admitted stamp is remembered for ever. */
  function Logged(history: seq<Time>, now: Time, ok: bool): seq<Time> {
    if ok then history + [now] else history
  }

  /** If the stored stamps and the full log agree beyond `cutoff`, they still do after any
      request whose own cutoff is not beyond it. */
  lemma AdmitAgrees(stored: seq<Time>, history: seq<Time>, now: Time, window: Time, max: int, cutoff: Time)
    requires After(stored, cutoff) == After(history, cutoff)
    requires now - window <= cutoff
    ensures var a := Admit(stored, now, window, max);
            After(a.stamps, cutoff) == After(Logged(history, now, a.ok), cutoff)
  {
    hide After;
    AfterAfter(stored, now - window, cutoff);
    AfterSnoc(After(stored, now - window), now, cutoff);
    AfterSnoc(history, now, cutoff);
  }

  /** One request keeps the interval bound, when the log and the stored stamps agree beyond
      the latest cutoff any request has used and `now` is at most `skew` behind it. */
  lemma AdmitKeepsBound(stored: seq<Time>, history: seq<Time>, now: Time, window: Time, max: int, bound: nat,
                        latest: Time, skew: nat, lo: Time)
    requires max <= bound
    requires After(stored, latest - window) == After(history, latest - window)
    requires now <= latest <= now + skew
    requires CountIn(history, lo, lo + window - skew) <= bound
    ensures CountIn(Logged(history, now, Admit(stored, now, window, max).ok), lo, lo + window - skew) <= bound
  {
    hide After, CountIn;
    var hi := lo + window - skew;
    CountSnoc(history, now, lo, hi);
    if lo <= now < hi {
      CountWithinAfter(history, lo, hi, latest - window);
      AfterShrinks(stored, now - window, latest - window);
    }
  }
}
