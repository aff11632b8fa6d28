/** The per-connection message limiter: a second sliding window, over milliseconds, whose clock
    is read under the lock. The wall clock it uses may still be set back, hence the skew. */
module MessageLimiter {
  import opened SlidingWindow

  const MAX_MESSAGES_PER_SECOND := 5
  const WINDOW := 1000

  function Check(stamps: seq<Time>, now: Time): Admission {
    Admit(stamps, now, WINDOW, MAX_MESSAGES_PER_SECOND)
  }

  class MessageLimiter {
    var stamps: seq<Time>

    constructor ()
      ensures stamps == []
    {
      stamps := [];
    }

    /** Builds the filtered list afresh and stores it, whatever the answer. */
    method CheckRateLimit(now: Time) returns (ok: bool)
      modifies this
      ensures Admission(stamps, ok) == Check(old(stamps), now)
      ensures ok <==> |After(old(stamps), now - 1000)| < 5
      ensures stamps == After(old(stamps), now - 1000) + if ok then [now] else []
    {
      var filtered := [];
      for i := 0 to |stamps|
        invariant stamps == old(stamps) && filtered == After(stamps[..i], now - WINDOW)
      {
        AfterNext(stamps, i, now - WINDOW);
        if stamps[i] > now - WINDOW {
          filtered := filtered + [stamps[i]];
        }
      }
      assert stamps[..|stamps|] == stamps;
      if |filtered| >= MAX_MESSAGES_PER_SECOND {
        stamps := filtered;
        return false;
      }
      stamps := filtered + [now];
      return true;
    }
  }

  /** The stored stamps after a run of messages, given by their clocks. */
  function Run(clocks: seq<Time>): seq<Time> {
    if clocks == [] then []
    else Check(Run(clocks[..|clocks| - 1]), clocks[|clocks| - 1]).stamps
  }

  /** Every message that got through, whether or not it is still remembered. */
  function Passed(clocks: seq<Time>): seq<Time> {
    if clocks == [] then []
    else
      var before, now := clocks[..|clocks| - 1], clocks[|clocks| - 1];
      Logged(Passed(before), now, Check(Run(before), now).ok)
  }

  lemma OneMoreMessage(clocks: seq<Time>, now: Time)
    ensures Run(clocks + [now]) == Check(Run(clocks), now).stamps
    ensures Passed(clocks + [now]) == Logged(Passed(clocks), now, Check(Run(clocks), now).ok)
  {
    assert (clocks + [now])[..|clocks|] == clocks;
  }

  lemma {:induction false} ForgottenAreOld(clocks: seq<Time>, latest: Time)
    requires forall i | 0 <= i < |clocks| :: clocks[i] <= latest
    ensures After(Run(clocks), latest - WINDOW) == After(Passed(clocks), latest - WINDOW)
  {
    if clocks != [] {
      var before, now := clocks[..|clocks| - 1], clocks[|clocks| - 1];
      assert clocks == before + [now];
      ForgottenAreOld(before, latest);
      hide Run, Passed, After;
      OneMoreMessage(before, now);
      AdmitAgrees(Run(before), Passed(before), now, WINDOW, MAX_MESSAGES_PER_SECOND, latest - WINDOW);
    }
  }

  /** What the limiter answered, message by message. */
  function Answers(clocks: seq<Time>): (r: seq<bool>)
    ensures |r| == |clocks|
  {
    if clocks == [] then []
    else
      var before, now := clocks[..|clocks| - 1], clocks[|clocks| - 1];
      Answers(before) + [Check(Run(before), now).ok]
  }

  /** How many messages with a stamp later than `cutoff` were answered yes. */
  function PassedSince(clocks: seq<Time>, answers: seq<bool>, cutoff: Time): nat
    requires |clocks| == |answers|
  {
    if clocks == [] then 0
    else
      var n := |clocks| - 1;
      PassedSince(clocks[..n], answers[..n], cutoff) + if answers[n] && clocks[n] > cutoff then 1 else 0
  }

  lemma {:induction false} PassedAreAnswered(clocks: seq<Time>, cutoff: Time)
    ensures |After(Passed(clocks), cutoff)| == PassedSince(clocks, Answers(clocks), cutoff)
  {
    if clocks != [] {
      var n := |clocks| - 1;
      var before, now := clocks[..n], clocks[n];
      PassedAreAnswered(before, cutoff);
      assert Answers(clocks)[..n] == Answers(before);
      AfterSnoc(Passed(before), now, cutoff);
      hide Run, After, Check;
    }
  }

  lemma {:induction false} AnswersOfPrefix(clocks: seq<Time>, n: nat)
    requires n <= |clocks|
    ensures Answers(clocks)[..n] == Answers(clocks[..n])
  {
    if n == |clocks| {
      assert clocks[..n] == clocks;
    } else {
      var before := clocks[..|clocks| - 1];
      AnswersOfPrefix(before, n);
      assert before[..n] == clocks[..n] && Answers(clocks)[..n] == Answers(before)[..n];
    }
  }

  /** The limiter forgets and yet answers as if it did not: while the clock is not set back, a
      message passes iff fewer than five of the earlier ones that passed have a stamp later than
      a second ago. */
  lemma PassesIffFewerThanFive(clocks: seq<Time>, n: nat)
    requires n < |clocks| && forall i, j | 0 <= i < j < |clocks| :: clocks[i] <= clocks[j]
    ensures Answers(clocks)[n] <==> PassedSince(clocks[..n], Answers(clocks)[..n], clocks[n] - 1000) < 5
  {
    hide *;
    var before, now := clocks[..n], clocks[n];
    assert clocks[..n + 1] == before + [now];
    AnswersOfPrefix(clocks, n);
    AnswersOfPrefix(clocks, n + 1);
    OneMoreAnswer(before, now);
    LastAnswer(before, now);
  }

  lemma OneMoreAnswer(clocks: seq<Time>, now: Time)
    ensures Answers(clocks + [now]) == Answers(clocks) + [Check(Run(clocks), now).ok]
  {
    assert (clocks + [now])[..|clocks|] == clocks;
    hide Run, Check;
  }

  lemma LastAnswer(before: seq<Time>, now: Time)
    requires forall i | 0 <= i < |before| :: before[i] <= now
    ensures Check(Run(before), now).ok <==> PassedSince(before, Answers(before), now - 1000) < 5
  {
    ForgottenAreOld(before, now);
    PassedAreAnswered(before, now - 1000);
    hide Run, Passed, After, Answers, PassedSince;
  }

  lemma LatestClock(before: seq<Time>, now: Time, skew: nat) returns (latest: Time)
    requires forall i | 0 <= i < |before| :: before[i] <= now + skew
    ensures now <= latest <= now + skew
    ensures forall i | 0 <= i < |before| :: before[i] <= latest
  {
    latest := now;
    for i := 0 to |before|
      invariant now <= latest <= now + skew
      invariant forall j | 0 <= j < i :: before[j] <= latest
    {
      if before[i] > latest {
        latest := before[i];
      }
    }
  }

  /** No interval of one second less the skew lets more than five messages through. */
  lemma {:induction false} AtMostFivePerSecond(clocks: seq<Time>, skew: nat, lo: Time)
    requires forall i, j | 0 <= i < j < |clocks| :: clocks[i] <= clocks[j] + skew
    ensures CountIn(Passed(clocks), lo, lo + 1000 - skew) <= 5
  {
    if clocks != [] {
      var before, now := clocks[..|clocks| - 1], clocks[|clocks| - 1];
      assert clocks == before + [now];
      AtMostFivePerSecond(before, skew, lo);
      hide Run, Passed, After, CountIn;
      assert forall i | 0 <= i < |before| :: before[i] == clocks[i] && clocks[i] <= clocks[|before|] + skew;
      MessageKeepsBound(before, now, skew, lo);
    }
  }

  lemma MessageKeepsBound(before: seq<Time>, now: Time, skew: nat, lo: Time)
    requires forall i | 0 <= i < |before| :: before[i] <= now + skew
    requires CountIn(Passed(before), lo, lo + WINDOW - skew) <= MAX_MESSAGES_PER_SECOND
    ensures CountIn(Passed(before + [now]), lo, lo + WINDOW - skew) <= MAX_MESSAGES_PER_SECOND
  {
    hide Run, Passed, After, CountIn;
    var latest := LatestClock(before, now, skew);
    ForgottenAreOld(before, latest);
    OneMoreMessage(before, now);
    AdmitKeepsBound(Run(before), Passed(before), now, WINDOW, MAX_MESSAGES_PER_SECOND, MAX_MESSAGES_PER_SECOND,
                    latest, skew, lo);
  }
}
