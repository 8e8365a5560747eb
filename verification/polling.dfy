/**
  The bounded pollers of the test helpers, `waitForEvents` and
  `waitForDeliveryAttempts`: up to `waitSeconds` polls, one per second,
  resolving with the first non-empty answer and rejecting once the polls are
  used up. Time is left out: a run is the sequence of polls it makes. Every
  poll asks the same query `q` (the subscription or event id and the
  `includeBody` flag); the answer to the k-th poll (counting from 1) is a
  parameter, `fetch(q, k)`.
 */
module Polling {
  import opened Errors

  /**
    How the helper's promise ends. `Unsettled` is the as-written behaviour when
    a poll fails: the failure escapes the timer callback and the promise never
    settles. `Failed` is the corrected behaviour: the promise rejects with it.
   */
  datatype Outcome<T> =
    | Resolved(items: seq<T>)
    | Rejected(reason: string)
    | Unsettled(cause: Error)
    | Failed(cause: Error)

  /** A run of a poller: how it ended and the query and iteration number of each poll made, in order. */
  datatype Poll<Q, T> = Poll(outcome: Outcome<T>, log: seq<(Q, nat)>)

  /** Every poll after `done` and before `upto` answered an empty list. */
  predicate EmptyBetween<Q, T>(fetch: (Q, nat) -> Result<seq<T>>, q: Q, done: nat, upto: nat) {
    forall it: nat :: done < it < upto ==> fetch(q, it).Ok? && |fetch(q, it).value| == 0
  }

  /**
    The poll loop after `done` polls. While `done < maxIterations` it counts
    one more iteration and polls: a non-empty answer resolves, an empty one
    polls again, a failure leaves the promise unsettled as written
    (`rejectsOnError` false) or rejects it as corrected (`rejectsOnError`
    true). With the polls used up it rejects with `reason`.
   */
  function PollFrom<Q, T(==)>(fetch: (Q, nat) -> Result<seq<T>>, q: Q, done: nat, maxIterations: int,
                           reason: string, rejectsOnError: bool): (r: Poll<Q, T>)
    // Never more polls than the bound allows; iterations are numbered on from `done`.
    ensures |r.log| <= (if maxIterations > done then maxIterations - done else 0)
    ensures forall k :: 0 <= k < |r.log| ==> r.log[k] == (q, done + k + 1)
    // Every poll but the last answered an empty list.
    ensures EmptyBetween(fetch, q, done, done + |r.log|)
    // Resolution carries the first non-empty answer.
    ensures r.outcome.Resolved? <==>
      |r.log| > 0 && fetch(q, done + |r.log|).Ok? && |fetch(q, done + |r.log|).value| > 0
    ensures r.outcome.Resolved? ==> r.outcome.items == fetch(q, done + |r.log|).value
    ensures r.outcome.Rejected? ==> r.outcome.reason == reason
    // A failed poll ends the run, unsettled as written, rejected as corrected.
    ensures r.outcome.Unsettled? || r.outcome.Failed? <==> |r.log| > 0 && fetch(q, done + |r.log|).Err?
    ensures r.outcome.Unsettled? ==> !rejectsOnError && fetch(q, done + |r.log|) == Err(r.outcome.cause)
    ensures r.outcome.Failed? ==> rejectsOnError && fetch(q, done + |r.log|) == Err(r.outcome.cause)
    decreases maxIterations - done
  {
    if done < maxIterations then
      var it := done + 1;
      match fetch(q, it)
      case Err(e) => Poll(if rejectsOnError then Failed(e) else Unsettled(e), [(q, it)])
      case Ok(items) =>
        if |items| > 0 then Poll(Resolved(items), [(q, it)])
        else
          var rest := PollFrom(fetch, q, it, maxIterations, reason, rejectsOnError);
          Poll(rest.outcome, [(q, it)] + rest.log)
    else
      Poll(Rejected(reason), [])
  }

  /**
    Rejection for time happens exactly when every poll made came back empty,
    and then every allowed poll was made.
   */
  lemma PollFromTimesOut<Q, T>(fetch: (Q, nat) -> Result<seq<T>>, q: Q, done: nat, maxIterations: int,
                               reason: string, rejectsOnError: bool)
    ensures var r := PollFrom(fetch, q, done, maxIterations, reason, rejectsOnError);
      && (r.outcome.Rejected? <==> EmptyBetween(fetch, q, done, done + |r.log| + 1))
      && (r.outcome.Rejected? ==> |r.log| == (if maxIterations > done then maxIterations - done else 0))
  {
    var r := PollFrom(fetch, q, done, maxIterations, reason, rejectsOnError);
    if r.outcome.Rejected? {
      RejectedAfterEmpty(fetch, q, done, maxIterations, reason, rejectsOnError);
      RejectedAfterAll(fetch, q, done, maxIterations, reason, rejectsOnError);
    } else {
      // The last poll made settled the run, so it was not empty.
      var it: nat := done + |r.log|;
      assert done < it < done + |r.log| + 1;
      assert !(fetch(q, it).Ok? && |fetch(q, it).value| == 0);
    }
  }

  /** A rejected run saw only empty answers, its last poll included. */
  lemma {:induction false} RejectedAfterEmpty<Q, T>(fetch: (Q, nat) -> Result<seq<T>>, q: Q, done: nat, maxIterations: int,
                                                    reason: string, rejectsOnError: bool)
    requires PollFrom(fetch, q, done, maxIterations, reason, rejectsOnError).outcome.Rejected?
    ensures EmptyBetween(fetch, q, done, done + |PollFrom(fetch, q, done, maxIterations, reason, rejectsOnError).log| + 1)
    decreases maxIterations - done
  {
    if done < maxIterations {
      var rest := PollFrom(fetch, q, done + 1, maxIterations, reason, rejectsOnError);
      assert |PollFrom(fetch, q, done, maxIterations, reason, rejectsOnError).log| == |rest.log| + 1;
      RejectedAfterEmpty(fetch, q, done + 1, maxIterations, reason, rejectsOnError);
      EmptyStep(fetch, q, done, done + 1 + |rest.log| + 1);
    }
  }

  /** A rejected run made every poll it was allowed. */
  lemma {:induction false} RejectedAfterAll<Q, T>(fetch: (Q, nat) -> Result<seq<T>>, q: Q, done: nat, maxIterations: int,
                                                  reason: string, rejectsOnError: bool)
    requires PollFrom(fetch, q, done, maxIterations, reason, rejectsOnError).outcome.Rejected?
    ensures |PollFrom(fetch, q, done, maxIterations, reason, rejectsOnError).log| == (if maxIterations > done then maxIterations - done else 0)
    decreases maxIterations - done
  {
    if done < maxIterations {
      RejectedAfterAll(fetch, q, done + 1, maxIterations, reason, rejectsOnError);
    }
  }

  /** An empty answer to poll `done + 1` extends an empty stretch after it back to `done`. */
  lemma EmptyStep<Q, T>(fetch: (Q, nat) -> Result<seq<T>>, q: Q, done: nat, upto: nat)
    requires fetch(q, done + 1).Ok? && |fetch(q, done + 1).value| == 0
    ensures EmptyBetween(fetch, q, done, upto) <==> EmptyBetween(fetch, q, done + 1, upto)
  {
  }

  /** The text of a timeout rejection before the interpolated value. */
  const ReasonHead := "Max iterations/timeout of "

  /** The text of a timeout rejection after the interpolated value. */
  function ReasonTail(what: string): string {
    " exceeded. No " + what + " received."
  }

  /** The rejection reason as written: it interpolates the text of the `waitForEvents` function. */
  function ReasonAsWritten(functionText: string, what: string): string {
    ReasonHead + functionText + ReasonTail(what)
  }

  /** The rejection reason as intended: it reports the number of seconds waited. */
  function Reason(waitSeconds: int, what: string): string {
    ReasonHead + Decimal(waitSeconds) + ReasonTail(what)
  }

  /** The two helpers; they differ only in what they poll and in the noun of their reason. */
  datatype Helper = WaitForEvents | WaitForDeliveryAttempts

  /** What the helper reports as not received. */
  function Noun(h: Helper): string {
    match h
    case WaitForEvents => "events"
    case WaitForDeliveryAttempts => "attempts"
  }

  /**
    A helper as written. `fetch(q, k)` is the answer of `getEvents`, or of
    `getDeliveryAttempts`, to the k-th poll, and `functionText` the text of the
    `waitForEvents` function, which both helpers interpolate.
   */
  function WaitAsWritten<Q, T(==)>(h: Helper, fetch: (Q, nat) -> Result<seq<T>>, q: Q, waitSeconds: int, functionText: string): (r: Poll<Q, T>)
    ensures waitSeconds <= 0 ==> r == Poll(Rejected(ReasonAsWritten(functionText, Noun(h))), [])
    ensures |r.log| <= (if waitSeconds > 0 then waitSeconds else 0)
    ensures forall k :: 0 <= k < |r.log| ==> r.log[k] == (q, k + 1)
    ensures r.outcome.Rejected? ==> r.outcome.reason == ReasonAsWritten(functionText, Noun(h))
    // A failed poll leaves the promise unsettled instead of rejecting it.
    ensures r.outcome.Unsettled? <==> |r.log| > 0 && fetch(q, |r.log|).Err?
    ensures !r.outcome.Failed?
  {
    PollFrom(fetch, q, 0, waitSeconds, ReasonAsWritten(functionText, Noun(h)), false)
  }

  /**
    A helper with the two defects corrected: a failed poll rejects the
    promise, and the timeout reason reports `waitSeconds`.
   */
  function Wait<Q, T(==)>(h: Helper, fetch: (Q, nat) -> Result<seq<T>>, q: Q, waitSeconds: int): (r: Poll<Q, T>)
    ensures waitSeconds <= 0 ==> r == Poll(Rejected(Reason(waitSeconds, Noun(h))), [])
    ensures |r.log| <= (if waitSeconds > 0 then waitSeconds else 0)
    ensures forall k :: 0 <= k < |r.log| ==> r.log[k] == (q, k + 1)
    ensures r.outcome.Rejected? ==> r.outcome.reason == Reason(waitSeconds, Noun(h))
    // The promise always settles.
    ensures !r.outcome.Unsettled?
    ensures r.outcome.Failed? <==> |r.log| > 0 && fetch(q, |r.log|).Err?
  {
    PollFrom(fetch, q, 0, waitSeconds, Reason(waitSeconds, Noun(h)), true)
  }

  /**
    The as-written poller can hang: when the first poll fails, the promise
    neither resolves nor rejects, whatever the wait.
   */
  lemma AsWrittenHangsOnFailure<Q, T>(h: Helper, fetch: (Q, nat) -> Result<seq<T>>, q: Q, waitSeconds: int, functionText: string)
    requires waitSeconds >= 1 && fetch(q, 1).Err?
    ensures WaitAsWritten(h, fetch, q, waitSeconds, functionText) == Poll(Unsettled(fetch(q, 1).error), [(q, 1)])
  {
  }

  /** The corrected poller rejects with the failure, after the same polls. */
  lemma CorrectedRejectsOnFailure<Q, T>(h: Helper, fetch: (Q, nat) -> Result<seq<T>>, q: Q, waitSeconds: int, functionText: string)
    ensures var a := WaitAsWritten(h, fetch, q, waitSeconds, functionText);
      var c := Wait(h, fetch, q, waitSeconds);
      && a.log == c.log
      && (a.outcome.Unsettled? <==> c.outcome.Failed?)
      && (a.outcome.Unsettled? ==> c.outcome.cause == a.outcome.cause)
      && (a.outcome.Resolved? <==> c.outcome.Resolved?)
      && (a.outcome.Resolved? ==> c.outcome.items == a.outcome.items)
      && (a.outcome.Rejected? <==> c.outcome.Rejected?)
  {
    Agree(fetch, q, 0, waitSeconds, ReasonAsWritten(functionText, Noun(h)), Reason(waitSeconds, Noun(h)));
  }

  /** The two variants poll alike; they differ only in how a failure and the timeout are reported. */
  lemma {:induction false} Agree<Q, T>(fetch: (Q, nat) -> Result<seq<T>>, q: Q, done: nat, maxIterations: int, r1: string, r2: string)
    ensures var a := PollFrom(fetch, q, done, maxIterations, r1, false);
      var c := PollFrom(fetch, q, done, maxIterations, r2, true);
      && a.log == c.log
      && (a.outcome.Unsettled? <==> c.outcome.Failed?)
      && (a.outcome.Unsettled? ==> c.outcome.cause == a.outcome.cause)
      && (a.outcome.Resolved? ==> c.outcome == a.outcome)
      && (a.outcome.Rejected? <==> c.outcome.Rejected?)
    decreases maxIterations - done
  {
    if done < maxIterations && fetch(q, done + 1).Ok? && |fetch(q, done + 1).value| == 0 {
      Agree(fetch, q, done + 1, maxIterations, r1, r2);
    }
  }

  /**
    The as-written rejection reason is the same whatever the wait, so it
    cannot report the timeout.
   */
  lemma AsWrittenReasonIgnoresWait<Q, T>(h: Helper, fetch: (Q, nat) -> Result<seq<T>>, q: Q, w1: int, w2: int, functionText: string)
    ensures var a := WaitAsWritten(h, fetch, q, w1, functionText);
      var b := WaitAsWritten(h, fetch, q, w2, functionText);
      a.outcome.Rejected? && b.outcome.Rejected? ==> a.outcome.reason == b.outcome.reason
  {
  }

  /** The corrected rejection reason tells every wait apart. */
  lemma ReasonInjective(w1: int, w2: int, what: string)
    requires Reason(w1, what) == Reason(w2, what)
    ensures w1 == w2
  {
    MiddleEqual(ReasonHead, Decimal(w1), Decimal(w2), ReasonTail(what));
    DecimalRoundTrip(w1);
    DecimalRoundTrip(w2);
  }

  /** Equal texts with the same prefix and suffix have the same middle. */
  lemma MiddleEqual(p: string, a: string, b: string, q: string)
    requires p + a + q == p + b + q
    ensures a == b
  {
    var s := p + a + q;
    assert |a| == |b|;
    assert a == s[|p|..|p| + |a|];
    assert b == (p + b + q)[|p|..|p| + |b|];
  }

  /** The character of a decimal digit. */
  function DigitChar(d: nat): (c: char)
    requires d < 10
    ensures '0' <= c <= '9' && c as int - '0' as int == d
  {
    (d + '0' as int) as char
  }

  /** The decimal digits of a natural number, most significant first, as `String(n)` prints them. */
  function Digits(n: nat): (s: string)
    ensures |s| > 0
    ensures forall i :: 0 <= i < |s| ==> '0' <= s[i] <= '9'
    decreases n
  {
    if n < 10 then [DigitChar(n)] else Digits(n / 10) + [DigitChar(n % 10)]
  }

  /** The decimal text of an integer, with `-` for a negative one. */
  function Decimal(n: int): (s: string)
    ensures |s| > 0
  {
    if n < 0 then "-" + Digits(-n) else Digits(n)
  }

  /** The value of a string of decimal digits. */
  function ParseDigits(s: string): nat
    requires forall i :: 0 <= i < |s| ==> '0' <= s[i] <= '9'
    decreases |s|
  {
    if |s| == 0 then 0 else ParseDigits(s[..|s| - 1]) * 10 + (s[|s| - 1] as int - '0' as int)
  }

  /** The value of a decimal text. */
  function ParseDecimal(s: string): int
    requires |s| > 0 ==> forall i :: (if s[0] == '-' then 1 else 0) <= i < |s| ==> '0' <= s[i] <= '9'
  {
    if |s| > 0 && s[0] == '-' then 0 - ParseDigits(s[1..]) as int else ParseDigits(s)
  }

  /** Reading back the digits of `n` gives `n`. */
  lemma {:induction false} DigitsRoundTrip(n: nat)
    ensures ParseDigits(Digits(n)) == n
    decreases n
  {
    var s := Digits(n);
    if n >= 10 {
      assert s[..|s| - 1] == Digits(n / 10);
      DigitsRoundTrip(n / 10);
    }
  }

  /** Reading back the decimal text of `n` gives `n`. */
  lemma DecimalRoundTrip(n: int)
    ensures ParseDecimal(Decimal(n)) == n
  {
    if n < 0 {
      assert Decimal(n)[1..] == Digits(-n);
      DigitsRoundTrip(-n);
    } else {
      DigitsRoundTrip(n);
    }
  }
}
