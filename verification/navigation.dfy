/**
 `Browser.go_to_url`: a bounded number of navigation attempts. An attempt
 that raises is followed by a back-off sleep of 2^attempt seconds (after the
 last attempt too); an attempt that loads returns at once, `false` when the
 page is invalid and `true` otherwise, without further attempts.
 */
module Navigation {
  import opened Strings
  import opened Trace

  /** What one `driver.get` plus the ready-state wait did. */
  datatype Landing =
    | Threw                                   // any exception, including the 10 s wait timing out
    | Loaded(currentUrl: string, title: string)

  /** The default of the `retries` parameter. */
  const DefaultRetries: nat := 3

  /** A `data:` URL, or a title that mentions 404 in any letter case. */
  predicate IsInvalidPage(currentUrl: string, title: string)
  {
    StartsWith(currentUrl, "data:") || Contains(Lower(title), "404")
  }

  function Pow2(n: nat): (r: nat)
    ensures r >= 1
  {
    if n == 0 then 1 else 2 * Pow2(n - 1)
  }

  /** The back-off after the first `k` failed attempts: 1, 2, 4, ... */
  function Backoff(from: nat, k: nat): (b: seq<nat>)
    ensures |b| == k
    ensures forall i :: 0 <= i < k ==> b[i] == Pow2(from + i)
    decreases k
  {
    if k == 0 then [] else [Pow2(from)] + Backoff(from + 1, k - 1)
  }

  datatype NavResult = NavResult(ok: bool, events: seq<Call>)

  /** Attempts `attempt`, `attempt + 1`, ... of the `for attempt in range(retries)` loop. */
  function AttemptFrom(url: string, landing: nat -> Landing, retries: nat, attempt: nat): (r: NavResult)
    requires attempt <= retries
    ensures attempt < retries ==> |r.events| > 0 && r.events[0] == Get(url)
    ensures r.ok ==> attempt < retries && |r.events| > 0 && r.events[|r.events| - 1] == Get(url)
    decreases retries - attempt
  {
    if attempt == retries then NavResult(false, [])
    else match landing(attempt)
      case Threw =>
        var rest := AttemptFrom(url, landing, retries, attempt + 1);
        NavResult(rest.ok, [Get(url), Sleep(Pow2(attempt))] + rest.events)
      case Loaded(current, title) =>
        NavResult(!IsInvalidPage(current, title), [Get(url)])
  }

  /** `go_to_url(url, retries)` against the scripted attempt outcomes `landing`. */
  function GoToUrl(url: string, landing: nat -> Landing, retries: nat): (r: NavResult)
    ensures retries > 0 ==> |r.events| > 0 && r.events[0] == Get(url)
    ensures r.ok ==> retries > 0 && |r.events| > 0 && r.events[|r.events| - 1] == Get(url)
  {
    AttemptFrom(url, landing, retries, 0)
  }

  /** Index of the first attempt at or after `from` that did not raise, or `retries`. */
  function FirstLanded(landing: nat -> Landing, retries: nat, from: nat): (k: nat)
    requires from <= retries
    ensures from <= k <= retries
    ensures forall i :: from <= i < k ==> landing(i).Threw?
    ensures k < retries ==> landing(k).Loaded?
    decreases retries - from
  {
    if from == retries || landing(from).Loaded? then from
    else FirstLanded(landing, retries, from + 1)
  }

  /** The page the attempt landed on is acceptable. */
  predicate IsValidLanding(l: Landing)
  {
    l.Loaded? && !IsInvalidPage(l.currentUrl, l.title)
  }

  /** A raised attempt adds one `get` and one sleep in front of what follows. */
  lemma RaisedAttempt(url: string, delay: nat, rest: seq<Call>)
    ensures var t := [Get(url), Sleep(delay)] + rest;
            && Count(t, KGet) == Count(rest, KGet) + 1
            && Count(t, KSleep) == Count(rest, KSleep) + 1
            && |t| == |rest| + 2
            && Delays(t) == [delay] + Delays(rest)
  {
    var head := [Get(url), Sleep(delay)];
    assert head == [Get(url)] + [Sleep(delay)];
    CountAppend([Get(url)], [Sleep(delay)], KGet);
    CountAppend([Get(url)], [Sleep(delay)], KSleep);
    CountSingle(Get(url), KGet);
    CountSingle(Get(url), KSleep);
    CountSingle(Sleep(delay), KGet);
    CountSingle(Sleep(delay), KSleep);
    CountAppend(head, rest, KGet);
    CountAppend(head, rest, KSleep);
    DelaysAppend([Get(url)], [Sleep(delay)]);
    DelaysSingle(Get(url));
    DelaysSingle(Sleep(delay));
    DelaysAppend(head, rest);
  }

  /**
   The counts of the attempts from `attempt` on: with `k` the first attempt
   that does not raise, there are k - attempt raised attempts with their
   back-off delays, then (if k < retries) the one attempt that loaded; the
   result is true exactly when that page is valid. `AttemptsInOrder` fixes
   where each call goes.
   */
  ghost predicate AttemptsBehave(url: string, landing: nat -> Landing, retries: nat, attempt: nat)
    requires attempt <= retries
  {
    var r := AttemptFrom(url, landing, retries, attempt);
    var k := FirstLanded(landing, retries, attempt);
    && Count(r.events, KGet) == (if k < retries then k + 1 else retries) - attempt
    && Count(r.events, KGet) + Count(r.events, KSleep) == |r.events|
    && Delays(r.events) == Backoff(attempt, k - attempt)
    && r.ok == (k < retries && IsValidLanding(landing(k)))
  }

  /**
   The order of the calls from `attempt` on: each raised attempt is its `get`
   immediately followed by its back-off sleep of 2^attempt seconds, and the
   attempt that loaded (if any) is one final `get`; nothing else is called.
   */
  ghost predicate AttemptsInOrder(url: string, landing: nat -> Landing, retries: nat, attempt: nat)
    requires attempt <= retries
  {
    var r := AttemptFrom(url, landing, retries, attempt);
    var k := FirstLanded(landing, retries, attempt);
    && |r.events| == 2 * (k - attempt) + (if k < retries then 1 else 0)
    && RaisedPairs(r.events, url, attempt, k - attempt)
    && (k < retries ==> r.events[|r.events| - 1] == Get(url))
  }

  /** `events` opens with n pairs: a `get` of `url`, then the sleep of 2^from, 2^(from + 1), ... seconds. */
  ghost predicate RaisedPairs(events: seq<Call>, url: string, from: nat, n: nat)
    decreases n
  {
    n == 0 ||
    (&& 2 <= |events|
     && events[0] == Get(url)
     && events[1] == Sleep(Pow2(from))
     && RaisedPairs(events[2..], url, from + 1, n - 1))
  }

  lemma RaisedPairsCons(events: seq<Call>, url: string, from: nat, n: nat)
    requires RaisedPairs(events, url, from + 1, n)
    ensures RaisedPairs([Get(url), Sleep(Pow2(from))] + events, url, from, n + 1)
  {
    assert ([Get(url), Sleep(Pow2(from))] + events)[2..] == events;
  }

  /** Pair m of a run of raised attempts sits at positions 2m and 2m + 1. */
  lemma {:induction false} RaisedPairsAt(events: seq<Call>, url: string, from: nat, n: nat, m: nat)
    requires RaisedPairs(events, url, from, n) && m < n
    ensures 2 * m + 1 < |events|
    ensures events[2 * m] == Get(url) && events[2 * m + 1] == Sleep(Pow2(from + m))
    decreases m
  {
    if m > 0 {
      RaisedPairsAt(events[2..], url, from + 1, n - 1, m - 1);
    }
  }

  /** A raised attempt in front of attempts in order keeps them in order. */
  lemma RaisedThenInOrder(url: string, landing: nat -> Landing, retries: nat, attempt: nat)
    requires attempt < retries && landing(attempt).Threw?
    requires AttemptsInOrder(url, landing, retries, attempt + 1)
    ensures AttemptsInOrder(url, landing, retries, attempt)
  {
    var rest := AttemptFrom(url, landing, retries, attempt + 1);
    var r := AttemptFrom(url, landing, retries, attempt);
    var k := FirstLanded(landing, retries, attempt + 1);
    assert FirstLanded(landing, retries, attempt) == k;
    assert r.events == [Get(url), Sleep(Pow2(attempt))] + rest.events;
    RaisedPairsCons(rest.events, url, attempt, k - (attempt + 1));
  }

  lemma {:induction false} AttemptsInOrderFrom(url: string, landing: nat -> Landing, retries: nat, attempt: nat)
    requires attempt <= retries
    ensures AttemptsInOrder(url, landing, retries, attempt)
    decreases retries - attempt
  {
    if attempt < retries && landing(attempt).Threw? {
      AttemptsInOrderFrom(url, landing, retries, attempt + 1);
      RaisedThenInOrder(url, landing, retries, attempt);
    }
  }

  /** A raised attempt followed by attempts that behave. */
  lemma RaisedThenBehave(url: string, landing: nat -> Landing, retries: nat, attempt: nat)
    requires attempt < retries && landing(attempt).Threw?
    requires AttemptsBehave(url, landing, retries, attempt + 1)
    ensures AttemptsBehave(url, landing, retries, attempt)
  {
    var rest := AttemptFrom(url, landing, retries, attempt + 1);
    var r := AttemptFrom(url, landing, retries, attempt);
    var k := FirstLanded(landing, retries, attempt + 1);
    assert r == NavResult(rest.ok, [Get(url), Sleep(Pow2(attempt))] + rest.events);
    assert FirstLanded(landing, retries, attempt) == k;
    assert Backoff(attempt, k - attempt) == [Pow2(attempt)] + Backoff(attempt + 1, k - (attempt + 1));
    RaisedAttempt(url, Pow2(attempt), rest.events);
  }

  /** An attempt that loads ends the attempts. */
  lemma LoadedAndDone(url: string, landing: nat -> Landing, retries: nat, attempt: nat)
    requires attempt < retries && landing(attempt).Loaded?
    ensures AttemptsBehave(url, landing, retries, attempt)
  {
    CountSingle(Get(url), KGet);
    CountSingle(Get(url), KSleep);
    DelaysSingle(Get(url));
    assert Backoff(attempt, 0) == [];
  }

  lemma {:induction false} AttemptFromBehaviour(url: string, landing: nat -> Landing, retries: nat, attempt: nat)
    requires attempt <= retries
    ensures AttemptsBehave(url, landing, retries, attempt)
    decreases retries - attempt
  {
    if attempt == retries {
      assert Backoff(attempt, 0) == [];
    } else if landing(attempt).Threw? {
      AttemptFromBehaviour(url, landing, retries, attempt + 1);
      RaisedThenBehave(url, landing, retries, attempt);
    } else {
      LoadedAndDone(url, landing, retries, attempt);
    }
  }

  /**
   `go_to_url` makes at most `retries` attempts; it succeeds exactly when the
   first attempt that does not raise lands on a valid page; and the delays it
   requests are 1, 2, 4, ... once per raised attempt. `GoToUrlInOrder` gives
   the position of every call.
   */
  lemma GoToUrlBehaviour(url: string, landing: nat -> Landing, retries: nat)
    ensures var r := GoToUrl(url, landing, retries);
            var k := FirstLanded(landing, retries, 0);
            && Count(r.events, KGet) <= retries
            && Count(r.events, KGet) == (if k < retries then k + 1 else retries)
            && Count(r.events, KGet) + Count(r.events, KSleep) == |r.events|
            && Delays(r.events) == Backoff(0, k)
            && r.ok == (k < retries && IsValidLanding(landing(k)))
  {
    AttemptFromBehaviour(url, landing, retries, 0);
  }

  /**
   The order of `go_to_url`'s calls: raised attempt m is its `get` at
   position 2m followed at once by its sleep of 2^m seconds, and the attempt
   that loaded (if any) is one final `get`; nothing else is called.
   */
  lemma GoToUrlInOrder(url: string, landing: nat -> Landing, retries: nat)
    ensures var r := GoToUrl(url, landing, retries);
            var k := FirstLanded(landing, retries, 0);
            && |r.events| == 2 * k + (if k < retries then 1 else 0)
            && (forall m :: 0 <= m < k ==> r.events[2 * m] == Get(url) && r.events[2 * m + 1] == Sleep(Pow2(m)))
            && (k < retries ==> r.events[|r.events| - 1] == Get(url))
  {
    AttemptsInOrderFrom(url, landing, retries, 0);
    var r := GoToUrl(url, landing, retries);
    var k := FirstLanded(landing, retries, 0);
    forall m | 0 <= m < k
      ensures r.events[2 * m] == Get(url) && r.events[2 * m + 1] == Sleep(Pow2(m))
    {
      RaisedPairsAt(r.events, url, 0, k, m);
    }
  }

  /**
   A `false` result means either every attempt raised, or the first attempt
   that loaded found an invalid page (and no attempt followed it).
   */
  lemma FailureMeansAllThrewOrInvalid(url: string, landing: nat -> Landing, retries: nat)
    requires !GoToUrl(url, landing, retries).ok
    ensures var k := FirstLanded(landing, retries, 0);
            || (forall i :: 0 <= i < retries ==> landing(i).Threw?)
            || (k < retries && landing(k).Loaded? && IsInvalidPage(landing(k).currentUrl, landing(k).title)
                && Count(GoToUrl(url, landing, retries).events, KGet) == k + 1)
  {
    GoToUrlBehaviour(url, landing, retries);
  }

  /** The back-off delays strictly increase, starting at one second. */
  lemma BackoffIncreasing(k: nat)
    ensures forall i, j :: 0 <= i < j < k ==> Backoff(0, k)[i] < Backoff(0, k)[j]
    ensures 0 < k ==> Backoff(0, k)[0] == 1
  {
    forall i, j | 0 <= i < j < k
      ensures Pow2(i) < Pow2(j)
    {
      Pow2Increasing(i, j);
    }
  }

  lemma {:induction false} Pow2Increasing(i: nat, j: nat)
    requires i < j
    ensures Pow2(i) < Pow2(j)
    decreases j
  {
    if i < j - 1 {
      Pow2Increasing(i, j - 1);
    }
  }

  /** A lower-cased title mentions 404 exactly when the title itself does. */
  lemma InvalidTitleIgnoresCase(currentUrl: string, title: string)
    ensures IsInvalidPage(currentUrl, title) <==> StartsWith(currentUrl, "data:") || Contains(title, "404")
  {
    LowerPreservesDigitSearch(title, "404");
  }

  /**
   A navigation that raises twice and then lands on a valid page succeeds
   after exactly three attempts, having slept 1 s and then 2 s.
   */
  lemma FailTwiceThenSucceed(url: string, landing: nat -> Landing)
    requires landing(0).Threw? && landing(1).Threw?
    requires IsValidLanding(landing(2))
    ensures GoToUrl(url, landing, DefaultRetries).ok
    ensures Count(GoToUrl(url, landing, DefaultRetries).events, KGet) == 3
    ensures Delays(GoToUrl(url, landing, DefaultRetries).events) == [1, 2]
  {
    assert FirstLanded(landing, 3, 2) == 2;
    assert FirstLanded(landing, 3, 0) == 2;
    GoToUrlBehaviour(url, landing, DefaultRetries);
    assert Backoff(0, 2) == [1, 2];
  }
}
