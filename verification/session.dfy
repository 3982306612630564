/**
 Browser construction and the per-thread browser cache: `Browser.__init__`
 with its fallback start-up strategy, and `get_thread_browser`, which builds a
 browser at most `max_retries` times (sleeping 2 s between failures) and
 re-raises after the last failure. Once a browser is cached it is returned
 as is, whatever has happened to it since.
 */
module Session {
  import opened Wrappers

  /** Whether each start-up strategy works on one construction. */
  datatype Construction = Construction(seleniumStarts: bool, undetectedStarts: bool)

  datatype Strategy = Selenium | Undetected

  /** `Browser()`: standard Selenium first, undetected_chromedriver only if that raised. */
  function Construct(c: Construction): (r: Option<Strategy>)
    ensures c.seleniumStarts ==> r == Some(Selenium)
    ensures r == Some(Undetected) ==> !c.seleniumStarts && c.undetectedStarts
    ensures r.None? <==> !c.seleniumStarts && !c.undetectedStarts
  {
    if c.seleniumStarts then Some(Selenium)
    else if c.undetectedStarts then Some(Undetected)
    else None
  }

  /** The thread's cached browser: none yet, or one that is live or already quit. */
  datatype Pool = Empty | Holding(live: bool)

  /** The default of `max_retries`. */
  const DefaultMaxRetries: nat := 3

  /** The fixed pause between failed constructions. */
  const InitRetryDelay: nat := 2

  /**
   The cache after the call (still `Empty` means the call raised), how many
   constructions were attempted, and the sleeps in between.
   */
  datatype Acquired = Acquired(pool: Pool, attempts: nat, sleeps: seq<nat>)

  /**
   Constructions `attempt`, `attempt + 1`, ... of the retry loop; construction
   number `n` meets `construct(n)`.
   */
  function TryFrom(construct: nat -> Construction, maxRetries: nat, attempt: nat): (r: Acquired)
    requires attempt <= maxRetries
    ensures attempt <= r.attempts <= maxRetries
    ensures attempt < maxRetries ==> attempt < r.attempts
    ensures r.pool == Empty || r.pool == Holding(true)
    ensures r.pool.Holding? ==> r.attempts > 0 && Construct(construct(r.attempts - 1)).Some?
    decreases maxRetries - attempt
  {
    if attempt == maxRetries then Acquired(Empty, attempt, [])
    else if Construct(construct(attempt)).Some? then Acquired(Holding(true), attempt + 1, [])
    else if attempt == maxRetries - 1 then Acquired(Empty, attempt + 1, [])
    else
      var rest := TryFrom(construct, maxRetries, attempt + 1);
      Acquired(rest.pool, rest.attempts, [InitRetryDelay] + rest.sleeps)
  }

  /** `get_thread_browser(max_retries)`. */
  function GetThreadBrowser(pool: Pool, construct: nat -> Construction, maxRetries: nat): (r: Acquired)
    ensures r.attempts <= maxRetries
    ensures pool.Holding? ==> r.pool == pool && r.attempts == 0 && r.sleeps == []
    ensures pool.Empty? && r.pool.Holding? ==> r.pool.live
    ensures pool.Empty? && maxRetries > 0 ==> r.attempts > 0
  {
    if pool.Holding? then Acquired(pool, 0, []) else TryFrom(construct, maxRetries, 0)
  }

  /** Index of the first construction at or after `from` that starts a browser, or `maxRetries`. */
  function FirstBuilt(construct: nat -> Construction, maxRetries: nat, from: nat): (k: nat)
    requires from <= maxRetries
    ensures from <= k <= maxRetries
    ensures forall i :: from <= i < k ==> Construct(construct(i)).None?
    ensures k < maxRetries ==> Construct(construct(k)).Some?
    decreases maxRetries - from
  {
    if from == maxRetries || Construct(construct(from)).Some? then from
    else FirstBuilt(construct, maxRetries, from + 1)
  }

  lemma {:induction false} TryFromBehaviour(construct: nat -> Construction, maxRetries: nat, attempt: nat)
    requires attempt <= maxRetries
    ensures var r := TryFrom(construct, maxRetries, attempt);
            var k := FirstBuilt(construct, maxRetries, attempt);
            && r.attempts == (if k < maxRetries then k + 1 else maxRetries)
            && r.pool == (if k < maxRetries then Holding(true) else Empty)
            && |r.sleeps| == (if r.attempts == attempt then 0 else r.attempts - attempt - 1)
            && (forall i :: 0 <= i < |r.sleeps| ==> r.sleeps[i] == InitRetryDelay)
    decreases maxRetries - attempt
  {
    if attempt < maxRetries && Construct(construct(attempt)).None? && attempt < maxRetries - 1 {
      TryFromBehaviour(construct, maxRetries, attempt + 1);
    }
  }

  /**
   A cached browser is returned without any construction. Otherwise the call
   attempts constructions until one starts a browser, never more than
   `maxRetries`; it raises (leaves the cache empty) exactly when none of the
   `maxRetries` constructions starts one, and sleeps 2 s between consecutive
   attempts but not after the last.
   */
  lemma GetThreadBrowserBehaviour(pool: Pool, construct: nat -> Construction, maxRetries: nat)
    ensures var r := GetThreadBrowser(pool, construct, maxRetries);
            var k := FirstBuilt(construct, maxRetries, 0);
            && r.attempts <= maxRetries
            && (pool.Holding? ==> r == Acquired(pool, 0, []))
            && (pool.Empty? ==>
                 && r.attempts == (if k < maxRetries then k + 1 else maxRetries)
                 && (r.pool.Empty? <==> forall i :: 0 <= i < maxRetries ==> Construct(construct(i)).None?)
                 && (r.pool.Holding? ==> r.pool.live)
                 && |r.sleeps| == (if r.attempts == 0 then 0 else r.attempts - 1)
                 && (forall i :: 0 <= i < |r.sleeps| ==> r.sleeps[i] == InitRetryDelay))
  {
    if pool.Empty? {
      TryFromBehaviour(construct, maxRetries, 0);
    }
  }
}
