/**
 The `__main__` batch: keep the sources whose status is the string "1", take
 the first two, skip those whose link is not an http URL, and run the agent
 loop on each, on the main thread, with one browser cache shared by all of
 them. A failure inside one source is logged and the batch goes on; a crash
 while checking a link, or a list entry that is not an object, ends the
 whole batch.
 */
module Orchestrator {
  import opened Wrappers
  import opened Json
  import opened Trace
  import Strings
  import Decision
  import Navigation
  import Session
  import opened Agent

  /** One entry of the sources file, as a JSON object. */
  type Source = map<string, Json>

  /** `source.get("status") == "1"`: the string "1", not the number 1. */
  predicate IsActive(s: Source)
  {
    Lookup(s, "status", Null) == Str("1")
  }

  /**
   The list comprehension `[s for s in sources if s.get("status") == "1"]`,
   on a list whose entries are all objects.
   */
  function Active(sources: seq<Source>): (r: seq<Source>)
    ensures |r| <= |sources|
    ensures forall s :: s in r <==> s in sources && IsActive(s)
  {
    if sources == [] then []
    else if IsActive(sources[0]) then [sources[0]] + Active(sources[1..])
    else Active(sources[1..])
  }

  /**
   The entries of the sources file as objects; `None` when some entry is not
   one, since `s.get` then raises inside the comprehension.
   */
  function Objects(entries: seq<Json>): (r: Option<seq<Source>>)
    ensures r.Some? <==> forall i :: 0 <= i < |entries| ==> entries[i].Obj?
    ensures r.Some? ==> |r.value| == |entries| && forall i :: 0 <= i < |entries| ==> entries[i] == Obj(r.value[i])
  {
    if entries == [] then Some([])
    else if !entries[0].Obj? then None
    else
      var rest := Objects(entries[1..]);
      if rest.None? then None else Some([entries[0].fields] + rest.value)
  }

  /** The `max_sources` limit. */
  const MaxSources: nat := 2

  /** `active_sources[:max_sources]`. */
  function Selected(sources: seq<Source>): (r: seq<Source>)
    ensures |r| == if |Active(sources)| < MaxSources then |Active(sources)| else MaxSources
    ensures r <= Active(sources)
  {
    var active := Active(sources);
    if |active| < MaxSources then active else active[..MaxSources]
  }

  /** What the link check does with a `link` value. */
  datatype LinkCheck =
    | Accept(url: string)
    /** The link is falsy, or a string that does not start with "http". */
    | Skip
    /** The link is truthy but not a string: `.startswith` raises. */
    | Crash

  /** `if not url or url.startswith("http") is False: continue`. */
  function CheckLink(link: Json): (r: LinkCheck)
    ensures r.Accept? <==> link.Str? && Strings.StartsWith(link.s, "http")
    ensures r.Accept? ==> r.url == link.s
    ensures r.Crash? <==> Truthy(link) && !link.Str?
  {
    if !Truthy(link) then Skip
    else if !link.Str? then Crash
    else if Strings.StartsWith(link.s, "http") then Accept(link.s)
    else Skip
  }

  /** The link check of one source. */
  function LinkOf(s: Source): LinkCheck
  {
    CheckLink(Lookup(s, "link", Null))
  }

  /** The `market` value of one source, whatever its type. */
  function MarketOf(s: Source): Json
  {
    Lookup(s, "market", Null)
  }

  /**
   Everything outside the program: browser construction number `n` meets
   `construct(n)`, selected source `k` meets `world(k)`, and `decode` is
   `json.loads`.
   */
  datatype Env = Env(construct: nat -> Session.Construction, world: nat -> World, decode: Decoder)

  /**
   A browser whose driver has been quit: every `driver.get` raises and so
   does every other driver call.
   */
  const DeadWorld: World :=
    World((n: nat) => Navigation.Threw,
          (n: nat) => Step(CaptureThrew, CaptureThrew, Decision.CallFailed, Decision.CallFailed, OtherError))

  /** What became of one selected source. */
  datatype Report =
    | Skipped
    /** `get_thread_browser` raised: no construction started a browser. */
    | InitFailed
    | Ran(outcome: Outcome)

  /** The browser cache and the number of browser constructions attempted so far. */
  datatype Cache = Cache(pool: Session.Pool, used: nat)

  /** What one source leaves behind: its report and the cache. */
  datatype Processed = Processed(report: Report, cache: Cache)

  /** The constructions the next browser build meets, after `used` of them. */
  function Constructions(env: Env, used: nat): nat -> Session.Construction
  {
    (n: nat) => env.construct(used + n)
  }

  /**
   `process_tariff_source` on selected source `k`, whose link `url` was
   accepted, as the per-source `try` sees it. `reset` says whether the cache
   is emptied after `quit`: the program as written does not (`reset == false`).
   */
  function ProcessSource(s: Source, url: string, k: nat, c: Cache, env: Env, reset: bool): Processed
  {
    var got := Session.GetThreadBrowser(c.pool, Constructions(env, c.used), Session.DefaultMaxRetries);
    var used := c.used + got.attempts;
    if got.pool.Empty? then Processed(InitFailed, Cache(Session.Empty, used))
    else
      var w := if got.pool.live then env.world(k) else DeadWorld;
      var o := RunSource(MarketOf(s), url, w, env.decode);
      Processed(Ran(o), Cache(if reset then Session.Empty else Session.Holding(false), used))
  }

  /** What the batch does with one source whose link was accepted. */
  type Visit = (Source, string, nat, Cache) -> Processed

  /** `ProcessSource` as a visit. */
  function Visitor(env: Env, reset: bool): Visit
  {
    (s: Source, url: string, k: nat, c: Cache) => ProcessSource(s, url, k, c, env, reset)
  }

  /** The reports of the batch, and whether an exception ended it early. */
  datatype Batch = Batch(reports: seq<Report>, aborted: bool)

  /**
   The batch loop over the remaining selected sources `srcs`, the first of
   which is selected source number `k`.
   */
  function BatchFrom(srcs: seq<Source>, k: nat, c: Cache, visit: Visit): Batch
    decreases |srcs|
  {
    if srcs == [] then Batch([], false)
    else match LinkOf(srcs[0])
      case Crash => Batch([], true)
      case Skip =>
        var rest := BatchFrom(srcs[1..], k + 1, c, visit);
        Batch([Skipped] + rest.reports, rest.aborted)
      case Accept(url) =>
        var p := visit(srcs[0], url, k, c);
        var rest := BatchFrom(srcs[1..], k + 1, p.cache, visit);
        Batch([p.report] + rest.reports, rest.aborted)
  }

  /** The cache at start-up: no browser, no construction attempted. */
  const Start: Cache := Cache(Session.Empty, 0)

  /**
   The `__main__` batch as written: one browser cache for the whole batch,
   never emptied. A source list with an entry that is not an object aborts
   before any source is looked at.
   */
  function RunBatch(entries: seq<Json>, env: Env): Batch
  {
    match Objects(entries)
    case None => Batch([], true)
    case Some(sources) => BatchFrom(Selected(sources), 0, Start, Visitor(env, false))
  }

  /** The batch with the cache emptied after each `quit`, so every source builds its own browser. */
  function RunBatchFresh(entries: seq<Json>, env: Env): Batch
  {
    match Objects(entries)
    case None => Batch([], true)
    case Some(sources) => BatchFrom(Selected(sources), 0, Start, Visitor(env, true))
  }
}

/** Properties of the batch, and the consequence of never emptying the browser cache. */
module BatchFacts {
  import opened Wrappers
  import opened Json
  import opened Trace
  import Navigation
  import Session
  import opened Agent
  import opened Orchestrator

  /** Filtering distributes over concatenation: the active sources keep their file order. */
  lemma {:induction false} ActiveAppend(a: seq<Source>, b: seq<Source>)
    ensures Active(a + b) == Active(a) + Active(b)
  {
    if a == [] {
      assert a + b == b;
    } else {
      assert (a + b)[1..] == a[1..] + b;
      ActiveAppend(a[1..], b);
    }
  }

  /** Filtering twice is filtering once. */
  lemma {:induction false} ActiveIdempotent(s: seq<Source>)
    ensures Active(Active(s)) == Active(s)
  {
    if s != [] {
      ActiveIdempotent(s[1..]);
      if IsActive(s[0]) {
        assert ([s[0]] + Active(s[1..]))[1..] == Active(s[1..]);
      }
    }
  }

  /** A list whose every entry is active is kept whole. */
  lemma {:induction false} AllActiveKept(s: seq<Source>)
    requires forall i :: 0 <= i < |s| ==> IsActive(s[i])
    ensures Active(s) == s
  {
    if s != [] {
      AllActiveKept(s[1..]);
      assert [s[0]] + s[1..] == s;
    }
  }

  /**
   The batch loop looks at the selected sources in order and gives each one a
   report until a link check crashes: the reports stop exactly at the first
   crashing link, or cover every source when none crashes; a source is
   reported skipped exactly when its link is rejected.
   */
  lemma {:induction false} BatchShape(srcs: seq<Source>, k: nat, c: Cache, visit: Visit)
    requires forall s: Source, url: string, j: nat, c': Cache :: visit(s, url, j, c').report != Skipped
    ensures var b := BatchFrom(srcs, k, c, visit);
            && |b.reports| <= |srcs|
            && (forall j :: 0 <= j < |b.reports| ==> !LinkOf(srcs[j]).Crash?)
            && (b.aborted <==> |b.reports| < |srcs|)
            && (b.aborted ==> LinkOf(srcs[|b.reports|]).Crash?)
            && (forall j :: 0 <= j < |b.reports| ==> (b.reports[j].Skipped? <==> LinkOf(srcs[j]).Skip?))
    decreases |srcs|
  {
    if srcs != [] && !LinkOf(srcs[0]).Crash? {
      var next := if LinkOf(srcs[0]).Skip? then c else visit(srcs[0], LinkOf(srcs[0]).url, k, c).cache;
      BatchShape(srcs[1..], k + 1, next, visit);
      var b := BatchFrom(srcs, k, c, visit);
      var rest := BatchFrom(srcs[1..], k + 1, next, visit);
      assert b.reports[1..] == rest.reports;
      forall j | 0 <= j < |b.reports|
        ensures b.reports[j].Skipped? <==> LinkOf(srcs[j]).Skip?
      {
        if j > 0 {
          assert b.reports[j] == rest.reports[j - 1];
          assert srcs[j] == srcs[1..][j - 1];
        }
      }
    }
  }

  /** Processing a source never reports it skipped. */
  lemma VisitorNeverSkips(env: Env, reset: bool)
    ensures forall s: Source, url: string, j: nat, c: Cache :: Visitor(env, reset)(s, url, j, c).report != Skipped
  {
  }

  /**
   The batch never takes more than `max_sources` sources, and, unless a link
   check crashes, reports on every one of them: a failure inside one source
   does not stop the next.
   */
  lemma BatchReports(entries: seq<Json>, env: Env, reset: bool)
    ensures var b := if reset then RunBatchFresh(entries, env) else RunBatch(entries, env);
            && |b.reports| <= MaxSources
            && (Objects(entries).None? ==> b.aborted && b.reports == [])
            && (Objects(entries).Some? ==>
                 var sel := Selected(Objects(entries).value);
                 && (!b.aborted ==> forall j :: 0 <= j < |sel| ==> !LinkOf(sel[j]).Crash?)
                 && (b.aborted ==> |b.reports| < |sel| && LinkOf(sel[|b.reports|]).Crash?)
                 && (!b.aborted ==> |b.reports| == |sel|)
                 && (forall j :: 0 <= j < |b.reports| ==> (b.reports[j].Skipped? <==> LinkOf(sel[j]).Skip?)))
  {
    if Objects(entries).Some? {
      var sel := Selected(Objects(entries).value);
      var b := if reset then RunBatchFresh(entries, env) else RunBatch(entries, env);
      assert b == BatchFrom(sel, 0, Start, Visitor(env, reset));
      assert |sel| <= MaxSources;
      VisitorNeverSkips(env, reset);
      BatchShape(sel, 0, Start, Visitor(env, reset));
      var n := |b.reports|;
      if b.aborted {
        assert n < |sel| && LinkOf(sel[n]).Crash?;
      } else {
        assert n == |sel|;
        assert forall j :: 0 <= j < |sel| ==> !LinkOf(sel[j]).Crash?;
      }
    }
  }

  /** The run of a source on a browser that has been quit. */
  function DeadOutcome(url: string): Outcome
  {
    Outcome(NavigationFailed, [Get(url), Sleep(1), Get(url), Sleep(2), Get(url), Sleep(4), Quit], None)
  }

  /**
   On a quit browser, navigation raises three times, backing off 1 s, 2 s and
   4 s, the run reports a navigation failure and nothing is saved.
   */
  lemma DeadBrowserNeverLoads(market: Json, url: string, decode: Decoder)
    ensures RunSource(market, url, DeadWorld, decode) == DeadOutcome(url)
  {
    var nav := Navigation.GoToUrl(url, DeadWorld.landing, Navigation.DefaultRetries);
    assert Navigation.AttemptFrom(url, DeadWorld.landing, 3, 3) == Navigation.NavResult(false, []);
    assert Navigation.AttemptFrom(url, DeadWorld.landing, 3, 2) == Navigation.NavResult(false, [Get(url), Sleep(4)]);
    assert Navigation.AttemptFrom(url, DeadWorld.landing, 3, 1) == Navigation.NavResult(false, [Get(url), Sleep(2), Get(url), Sleep(4)]);
    assert nav == Navigation.NavResult(false, [Get(url), Sleep(1), Get(url), Sleep(2), Get(url), Sleep(4)]);
  }

  /** The single-source run of selected source `k` against its own site. */
  function OwnRun(env: Env, s: Source, url: string, k: nat): Outcome
  {
    RunSource(MarketOf(s), url, env.world(k), env.decode)
  }

  /**
   A source processed with an empty cache either fails to get a browser, or
   runs against its own site on a freshly built one; it fails exactly when
   none of the next three constructions starts a browser. Afterwards the cache
   holds the quit browser, unless it is emptied.
   */
  lemma ProcessFromEmpty(s: Source, url: string, k: nat, used: nat, env: Env, reset: bool)
    ensures var p := ProcessSource(s, url, k, Cache(Session.Empty, used), env, reset);
            && (p.report == InitFailed || p.report == Ran(OwnRun(env, s, url, k)))
            && (p.report.Ran? <==> exists i :: used <= i < used + Session.DefaultMaxRetries && Session.Construct(env.construct(i)).Some?)
            && p.cache.pool == (if p.report.Ran? && !reset then Session.Holding(false) else Session.Empty)
  {
    var construct := Constructions(env, used);
    Session.GetThreadBrowserBehaviour(Session.Empty, construct, Session.DefaultMaxRetries);
    var got := Session.GetThreadBrowser(Session.Empty, construct, Session.DefaultMaxRetries);
    if got.pool.Empty? {
      forall i | used <= i < used + Session.DefaultMaxRetries
        ensures Session.Construct(env.construct(i)).None?
      {
        assert construct(i - used) == env.construct(i);
      }
    } else {
      var i :| 0 <= i < Session.DefaultMaxRetries && Session.Construct(construct(i)).Some?;
      assert construct(i) == env.construct(used + i);
    }
  }

  /** A source processed while the cache holds a quit browser gets that browser, and the dead-browser run. */
  lemma ProcessFromQuit(s: Source, url: string, k: nat, used: nat, env: Env)
    ensures ProcessSource(s, url, k, Cache(Session.Holding(false), used), env, false)
              == Processed(Ran(DeadOutcome(url)), Cache(Session.Holding(false), used))
  {
    DeadBrowserNeverLoads(MarketOf(s), url, env.decode);
  }

  /** A visit that, on a quit browser, always makes the dead-browser run and keeps the cache. */
  ghost predicate ReusesQuit(visit: Visit)
  {
    forall s: Source, url: string, j: nat, c: Cache :: c.pool == Session.Holding(false) ==> visit(s, url, j, c) == Processed(Ran(DeadOutcome(url)), c)
  }

  /**
   Once the cache holds a quit browser, no later source ever loads its page:
   every source with an accepted link reports the dead-browser run, whatever
   its own site would have done.
   */
  lemma {:induction false} QuitBrowserIsReused(srcs: seq<Source>, k: nat, c: Cache, visit: Visit)
    requires c.pool == Session.Holding(false) && ReusesQuit(visit)
    ensures var b := BatchFrom(srcs, k, c, visit);
            forall j :: 0 <= j < |b.reports| && j < |srcs| && LinkOf(srcs[j]).Accept? ==>
              b.reports[j] == Ran(DeadOutcome(LinkOf(srcs[j]).url))
    decreases |srcs|
  {
    if srcs != [] && !LinkOf(srcs[0]).Crash? {
      QuitBrowserIsReused(srcs[1..], k + 1, c, visit);
      var b := BatchFrom(srcs, k, c, visit);
      var rest := BatchFrom(srcs[1..], k + 1, c, visit);
      assert b.reports[1..] == rest.reports;
      forall j | 0 <= j < |b.reports| && j < |srcs| && LinkOf(srcs[j]).Accept?
        ensures b.reports[j] == Ran(DeadOutcome(LinkOf(srcs[j]).url))
      {
        if j > 0 {
          assert b.reports[j] == rest.reports[j - 1];
          assert srcs[j] == srcs[1..][j - 1];
        }
      }
    }
  }

  /** A visit that, from an empty cache, fails to build or runs against the source's own site, and empties the cache. */
  ghost predicate AlwaysFresh(visit: Visit, run: (Source, string, nat) -> Outcome)
  {
    forall s: Source, url: string, j: nat, c: Cache :: c.pool == Session.Empty ==>
      var p := visit(s, url, j, c);
      && (p.report == InitFailed || p.report == Ran(run(s, url, j)))
      && p.cache.pool == Session.Empty
  }

  /**
   With the cache emptied after each `quit`, every source that gets a browser
   runs against its own site: its report is exactly the single-source run.
   */
  lemma {:induction false} FreshBrowserPerSource(srcs: seq<Source>, k: nat, c: Cache, visit: Visit, run: (Source, string, nat) -> Outcome)
    requires c.pool == Session.Empty && AlwaysFresh(visit, run)
    ensures OwnRuns(BatchFrom(srcs, k, c, visit).reports, srcs, k, run)
    decreases |srcs|
  {
    if srcs != [] && !LinkOf(srcs[0]).Crash? {
      var link := LinkOf(srcs[0]);
      var head := if link.Skip? then Skipped else visit(srcs[0], link.url, k, c).report;
      var next := if link.Skip? then c else visit(srcs[0], link.url, k, c).cache;
      assert next.pool == Session.Empty;
      assert link.Accept? ==> head == InitFailed || head == Ran(run(srcs[0], link.url, k));
      FreshBrowserPerSource(srcs[1..], k + 1, next, visit, run);
      var rest := BatchFrom(srcs[1..], k + 1, next, visit);
      assert BatchFrom(srcs, k, c, visit).reports == [head] + rest.reports;
      OwnRunsCons(head, rest.reports, srcs, k, run);
    }
  }

  /** Every report at a position whose link was accepted is a failed build or the source's own run. */
  ghost predicate OwnRuns(reports: seq<Report>, srcs: seq<Source>, k: nat, run: (Source, string, nat) -> Outcome)
  {
    forall j :: 0 <= j < |reports| && j < |srcs| && LinkOf(srcs[j]).Accept? ==>
      reports[j] == InitFailed || reports[j] == Ran(run(srcs[j], LinkOf(srcs[j]).url, k + j))
  }

  lemma OwnRunsCons(head: Report, rest: seq<Report>, srcs: seq<Source>, k: nat, run: (Source, string, nat) -> Outcome)
    requires |srcs| > 0
    requires LinkOf(srcs[0]).Accept? ==> head == InitFailed || head == Ran(run(srcs[0], LinkOf(srcs[0]).url, k))
    requires OwnRuns(rest, srcs[1..], k + 1, run)
    ensures OwnRuns([head] + rest, srcs, k, run)
  {
    var reports := [head] + rest;
    forall j | 0 <= j < |reports| && j < |srcs| && LinkOf(srcs[j]).Accept?
      ensures reports[j] == InitFailed || reports[j] == Ran(run(srcs[j], LinkOf(srcs[j]).url, k + j))
    {
      if j > 0 {
        assert reports[j] == rest[j - 1];
        assert srcs[j] == srcs[1..][j - 1];
        assert k + j == (k + 1) + (j - 1);
      }
    }
  }

  /** A visit that, from an empty cache, leaves the quit browser behind exactly when the source ran. */
  ghost predicate KeepsQuit(visit: Visit)
  {
    forall s: Source, url: string, j: nat, c: Cache :: c.pool == Session.Empty ==>
      var p := visit(s, url, j, c);
      p.cache.pool == (if p.report.Ran? then Session.Holding(false) else Session.Empty)
  }

  /** Every source after position `from` with an accepted link reports the dead-browser run. */
  ghost predicate DeadAfter(reports: seq<Report>, srcs: seq<Source>, from: int)
  {
    forall j :: 0 <= j && from < j < |reports| && j < |srcs| && LinkOf(srcs[j]).Accept? ==>
      reports[j] == Ran(DeadOutcome(LinkOf(srcs[j]).url))
  }

  lemma DeadAfterShift(reports: seq<Report>, srcs: seq<Source>, from: int)
    requires |reports| > 0 && |srcs| > 0 && from >= 0
    requires DeadAfter(reports[1..], srcs[1..], from - 1)
    ensures DeadAfter(reports, srcs, from)
  {
    forall j | 0 <= j && from < j < |reports| && j < |srcs| && LinkOf(srcs[j]).Accept?
      ensures reports[j] == Ran(DeadOutcome(LinkOf(srcs[j]).url))
    {
      assert reports[j] == reports[1..][j - 1];
      assert srcs[j] == srcs[1..][j - 1];
    }
  }

  /** After every source that ran, each later source with an accepted link reports the dead-browser run. */
  ghost predicate DeadAfterEveryRun(reports: seq<Report>, srcs: seq<Source>)
  {
    forall i :: 0 <= i < |reports| && reports[i].Ran? ==> DeadAfter(reports, srcs, i)
  }

  lemma DeadAfterEveryRunCons(reports: seq<Report>, srcs: seq<Source>)
    requires |reports| > 0 && |srcs| > 0 && !reports[0].Ran?
    requires DeadAfterEveryRun(reports[1..], srcs[1..])
    ensures DeadAfterEveryRun(reports, srcs)
  {
    forall i | 0 <= i < |reports| && reports[i].Ran?
      ensures DeadAfter(reports, srcs, i)
    {
      assert reports[i] == reports[1..][i - 1];
      DeadAfterShift(reports, srcs, i);
    }
  }

  /**
   When the cache is never emptied, the first source that runs leaves its quit
   browser behind, and every later source with an accepted link gets the
   dead-browser run.
   */
  lemma {:induction false} OneBrowserPerBatch(srcs: seq<Source>, k: nat, c: Cache, visit: Visit)
    requires c.pool == Session.Empty && KeepsQuit(visit) && ReusesQuit(visit)
    ensures var b := BatchFrom(srcs, k, c, visit);
            forall i :: 0 <= i < |b.reports| && b.reports[i].Ran? ==> DeadAfter(b.reports, srcs, i)
    decreases |srcs|
  {
    if srcs != [] && !LinkOf(srcs[0]).Crash? {
      var b := BatchFrom(srcs, k, c, visit);
      var first := if LinkOf(srcs[0]).Skip? then Processed(Skipped, c) else visit(srcs[0], LinkOf(srcs[0]).url, k, c);
      var rest := BatchFrom(srcs[1..], k + 1, first.cache, visit);
      assert b.reports[1..] == rest.reports;
      assert b.reports[0] == first.report;
      if first.report.Ran? {
        QuitBrowserIsReused(srcs[1..], k + 1, first.cache, visit);
        DeadAfterShift(b.reports, srcs, 0);
      } else {
        var tail, cache := srcs[1..], first.cache;
        assert cache.pool == Session.Empty;
        OneBrowserPerBatch(tail, k + 1, cache, visit);
        assert rest == BatchFrom(tail, k + 1, cache, visit);
        DeadAfterEveryRunCons(b.reports, srcs);
      }
    }
  }

  /** The program's own visit never empties the cache and keeps reusing a quit browser. */
  lemma AsWrittenVisit(env: Env)
    ensures KeepsQuit(Visitor(env, false)) && ReusesQuit(Visitor(env, false))
  {
    forall s: Source, url: string, j: nat, c: Cache | c.pool == Session.Empty
      ensures var p := Visitor(env, false)(s, url, j, c);
              p.cache.pool == (if p.report.Ran? then Session.Holding(false) else Session.Empty)
    {
      ProcessFromEmpty(s, url, j, c.used, env, false);
    }
    forall s: Source, url: string, j: nat, c: Cache | c.pool == Session.Holding(false)
      ensures Visitor(env, false)(s, url, j, c) == Processed(Ran(DeadOutcome(url)), c)
    {
      ProcessFromQuit(s, url, j, c.used, env);
    }
  }

  /** The corrected visit empties the cache and runs each source against its own site. */
  lemma CorrectedVisit(env: Env)
    ensures AlwaysFresh(Visitor(env, true), (s: Source, url: string, j: nat) => OwnRun(env, s, url, j))
  {
    forall s: Source, url: string, j: nat, c: Cache | c.pool == Session.Empty
      ensures var p := Visitor(env, true)(s, url, j, c);
              && (p.report == InitFailed || p.report == Ran(OwnRun(env, s, url, j)))
              && p.cache.pool == Session.Empty
    {
      ProcessFromEmpty(s, url, j, c.used, env, true);
    }
  }

  /**
   The batch as written, on every input: after the first source that runs,
   every later source with an accepted link fails to navigate, whatever its
   own site does.
   */
  lemma RunBatchReusesQuitBrowser(entries: seq<Json>, env: Env)
    requires Objects(entries).Some?
    ensures var sel := Selected(Objects(entries).value);
            var b := RunBatch(entries, env);
            forall i :: 0 <= i < |b.reports| && b.reports[i].Ran? ==> DeadAfter(b.reports, sel, i)
  {
    var sel := Selected(Objects(entries).value);
    AsWrittenVisit(env);
    OneBrowserPerBatch(sel, 0, Start, Visitor(env, false));
    assert RunBatch(entries, env) == BatchFrom(sel, 0, Start, Visitor(env, false));
  }

  /**
   The corrected batch, on every input: each source with an accepted link
   either fails to build a browser or runs against its own site.
   */
  lemma FreshBatchRunsEachSourceAlone(entries: seq<Json>, env: Env)
    requires Objects(entries).Some?
    ensures var sel := Selected(Objects(entries).value);
            var b := RunBatchFresh(entries, env);
            forall j :: 0 <= j < |b.reports| && j < |sel| && LinkOf(sel[j]).Accept? ==>
              b.reports[j] == InitFailed || b.reports[j] == Ran(OwnRun(env, sel[j], LinkOf(sel[j]).url, j))
  {
    CorrectedVisit(env);
    FreshBrowserPerSource(Selected(Objects(entries).value), 0, Start, Visitor(env, true),
                          (s: Source, url: string, j: nat) => OwnRun(env, s, url, j));
  }

  /**
   The defect on the smallest batch that shows it: two selected sources with
   http links, and the first browser builds at once. The first source runs
   against its own site; the second is handed the browser the first one quit
   and fails to navigate, whatever its own site would have done.
   */
  lemma SecondSourceNeverLoads(entries: seq<Json>, env: Env)
    requires Objects(entries).Some?
    requires var sel := Selected(Objects(entries).value);
             |sel| == 2 && LinkOf(sel[0]).Accept? && LinkOf(sel[1]).Accept?
    requires Session.Construct(env.construct(0)).Some?
    ensures var sel := Selected(Objects(entries).value);
            RunBatch(entries, env)
              == Batch([Ran(OwnRun(env, sel[0], LinkOf(sel[0]).url, 0)), Ran(DeadOutcome(LinkOf(sel[1]).url))], false)
  {
    var sel := Selected(Objects(entries).value);
    var visit := Visitor(env, false);
    var p := visit(sel[0], LinkOf(sel[0]).url, 0, Start);
    assert Constructions(env, 0)(0) == env.construct(0);
    assert p == Processed(Ran(OwnRun(env, sel[0], LinkOf(sel[0]).url, 0)), Cache(Session.Holding(false), 1));
    ProcessFromQuit(sel[1], LinkOf(sel[1]).url, 1, 1, env);
    assert sel[1..][1..] == [];
    assert BatchFrom(sel[1..], 1, p.cache, visit) == Batch([Ran(DeadOutcome(LinkOf(sel[1]).url))], false);
  }

  /**
   The corrected batch on the same input: once the second source builds a
   browser of its own, it runs against its own site.
   */
  lemma SecondSourceGetsItsOwnBrowser(entries: seq<Json>, env: Env)
    requires Objects(entries).Some?
    requires var sel := Selected(Objects(entries).value);
             |sel| == 2 && LinkOf(sel[0]).Accept? && LinkOf(sel[1]).Accept?
    requires Session.Construct(env.construct(0)).Some? && Session.Construct(env.construct(1)).Some?
    ensures var sel := Selected(Objects(entries).value);
            RunBatchFresh(entries, env)
              == Batch([Ran(OwnRun(env, sel[0], LinkOf(sel[0]).url, 0)), Ran(OwnRun(env, sel[1], LinkOf(sel[1]).url, 1))], false)
  {
    var sel := Selected(Objects(entries).value);
    var visit := Visitor(env, true);
    var p := visit(sel[0], LinkOf(sel[0]).url, 0, Start);
    assert Constructions(env, 0)(0) == env.construct(0);
    assert p == Processed(Ran(OwnRun(env, sel[0], LinkOf(sel[0]).url, 0)), Cache(Session.Empty, 1));
    var q := visit(sel[1], LinkOf(sel[1]).url, 1, p.cache);
    assert Constructions(env, 1)(0) == env.construct(1);
    assert q == Processed(Ran(OwnRun(env, sel[1], LinkOf(sel[1]).url, 1)), Cache(Session.Empty, 2));
    assert sel[1..][1..] == [];
    assert BatchFrom(sel[1..], 1, p.cache, visit) == Batch([q.report], false);
  }
}
