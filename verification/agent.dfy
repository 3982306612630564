/**
 The agent decision loop `process_tariff_source` for one source, with the
 browser and the language model replaced by scripted oracles. It navigates
 once; then, for at most five iterations, it observes the page, asks the
 visual analyser, falls back once to the HTML-only analyser when that answer
 is falsy, and dispatches on the answer: a list is saved and ends the run, a
 `click` or `type` that works goes round again, anything else stops. The
 browser is quit on every way out.
 */
module Agent {
  import opened Wrappers
  import opened Json
  import opened Trace
  import Decision
  import Navigation
  import SafeName

  /** The loop bound `max_iterations`. */
  const MaxIterations: nat := 5

  /** The pause `get_page_source` takes before reading the DOM. */
  const ObserveDelay: nat := 5

  /** The pause after a click. */
  const ClickSettle: nat := 3

  /** The pause after typing. */
  const TypeSettle: nat := 2

  /** A browser read that either returns a value or raises. */
  datatype Capture<T> = Captured(value: T) | CaptureThrew

  /**
   What happens when the loop clicks or types: it works, it hits
   NoSuchElementException or TimeoutException (caught: the loop stops), or it
   hits any other exception (not caught: it propagates out of the loop).
   */
  datatype ActResult = Performed | NotFound | OtherError

  /** What the page and the model do in one iteration. */
  datatype Step = Step(
    html: Capture<string>,
    screenshot: Capture<seq<bv8>>,
    visual: Decision.Reply,
    htmlOnly: Decision.Reply,
    act: ActResult)

  /** The scripted browser and model: navigation attempt `n`, and iteration `i`. */
  datatype World = World(landing: nat -> Navigation.Landing, step: nat -> Step)

  /** Why a run ended. `Raised` is an exception escaping the loop (after `quit`). */
  datatype Reason =
    | NavigationFailed
    | Extracted
    | NoDecision
    | ClickFailed
    | TypeFailed
    | UnknownAction
    | IterationsExhausted
    | Raised

  /** The end of a run: why, the calls made in order, and the updates saved if any. */
  datatype Outcome = Outcome(reason: Reason, trace: seq<Call>, saved: Option<seq<Json>>)

  /** The decision of one iteration and the model calls that produced it. */
  datatype Decided = Decided(value: Json, calls: seq<Call>)

  /** Visual analysis; HTML-only analysis as a single fallback when the first answer is falsy. */
  function Decide(st: Step, html: string, decode: Decoder): Decided
  {
    var ex := Decision.Excerpt(html);
    var first := Decision.AnalyseForAction(st.visual, decode);
    if Truthy(first) then Decided(first, [AskVisual(ex)])
    else Decided(Decision.AnalyseForAction(st.htmlOnly, decode), [AskVisual(ex), AskHtmlOnly(ex)])
  }

  /** One iteration goes round again, or ends the loop. */
  datatype Round =
    | Continue(events: seq<Call>)
    | Stop(reason: Reason, events: seq<Call>, saved: Option<seq<Json>>)

  function Then(prefix: seq<Call>, r: Round): Round
  {
    match r
    case Continue(ev) => Continue(prefix + ev)
    case Stop(reason, ev, saved) => Stop(reason, prefix + ev, saved)
  }

  /** Acting on a decision `v` of the model. */
  function Act(market: Json, v: Json, act: ActResult): Round
  {
    if !Truthy(v) then Stop(NoDecision, [], None)
    else match v
      case Arr(updates) =>
        // save_results feeds the market to a regex substitution, which raises unless it is a string
        if market.Str? then Stop(Extracted, [Save(SafeName.OutputFile(market.s), updates)], Some(updates))
        else Stop(Raised, [], None)
      case Obj(fields) =>
        var action := Lookup(fields, "action", Null);
        var xpath := Lookup(fields, "xpath", Null);
        if action == Str("click") then
          match act
          case Performed => Continue([Click(xpath), Sleep(ClickSettle)])
          case NotFound => Stop(ClickFailed, [Click(xpath)], None)
          case OtherError => Stop(Raised, [Click(xpath)], None)
        else if action == Str("type") then
          var text := Lookup(fields, "text", Str(""));
          match act
          case Performed => Continue([TypeInto(xpath, text), Sleep(TypeSettle)])
          case NotFound => Stop(TypeFailed, [TypeInto(xpath, text)], None)
          case OtherError => Stop(Raised, [TypeInto(xpath, text)], None)
        else Stop(UnknownAction, [], None)
      case _ =>
        // a truthy number, string or boolean has no `.get`
        Stop(Raised, [], None)
  }

  /** The calls of one observation: the settle pause, the DOM read, the screenshot. */
  const Observe: seq<Call> := [Sleep(ObserveDelay), ReadSource, TakeScreenshot]

  /** One iteration: observe, decide, act. */
  function RunRound(market: Json, st: Step, decode: Decoder): Round
  {
    match st.html
    case CaptureThrew => Stop(Raised, [Sleep(ObserveDelay), ReadSource], None)
    case Captured(html) =>
      if st.screenshot.CaptureThrew? then Stop(Raised, Observe, None)
      else
        var d := Decide(st, html, decode);
        Then(Observe + d.calls, Act(market, d.value, st.act))
  }

  /** What iteration `j` does in a given world. */
  function Rounds(market: Json, w: World, decode: Decoder): nat -> Round
  {
    (j: nat) => RunRound(market, w.step(j), decode)
  }

  /**
   Iterations `i`, `i + 1`, ... of the `for i in range(max_iterations)` loop,
   given what each iteration does.
   */
  function Iterations(round: nat -> Round, i: nat): Outcome
    requires i <= MaxIterations
    decreases MaxIterations - i
  {
    if i == MaxIterations then Outcome(IterationsExhausted, [], None)
    else match round(i)
      case Continue(ev) =>
        var rest := Iterations(round, i + 1);
        Outcome(rest.reason, ev + rest.trace, rest.saved)
      case Stop(reason, ev, saved) => Outcome(reason, ev, saved)
  }

  /** `process_tariff_source` once it holds a browser: navigate, loop, and always quit. */
  function RunSource(market: Json, url: string, w: World, decode: Decoder): Outcome
  {
    var nav := Navigation.GoToUrl(url, w.landing, Navigation.DefaultRetries);
    if !nav.ok then Outcome(NavigationFailed, nav.events + [Quit], None)
    else
      var loop := Iterations(Rounds(market, w, decode), 0);
      Outcome(loop.reason, nav.events + loop.trace + [Quit], loop.saved)
  }
}

/** Properties of the decision loop. */
module LoopFacts {
  import opened Wrappers
  import opened Json
  import opened Trace
  import Decision
  import Navigation
  import SafeName
  import opened Agent

  /** The trace touches neither navigation nor `quit`. */
  predicate Inner(t: seq<Call>)
  {
    Count(t, KGet) == 0 && Count(t, KQuit) == 0
  }

  /**
   The visual analyser is asked exactly once per decision and the HTML-only
   analyser at most once, and only when the visual answer is falsy (an empty
   `[]` or `{}` included). The decision is the visual answer when that is
   truthy, the HTML-only answer otherwise.
   */
  lemma FallbackDiscipline(st: Step, html: string, decode: Decoder)
    ensures var d := Decide(st, html, decode);
            var first := Decision.AnalyseForAction(st.visual, decode);
            && d.calls[0] == AskVisual(Decision.Excerpt(html))
            && Count(d.calls, KVisual) == 1
            && Count(d.calls, KHtmlOnly) == (if Truthy(first) then 0 else 1)
            && Count(d.calls, KRead) == 0 && Count(d.calls, KSave) == 0 && Inner(d.calls)
            && Count(d.calls, KClick) == 0 && Count(d.calls, KType) == 0
            && (first == EmptyObject || first == EmptyArray ==> Count(d.calls, KHtmlOnly) == 1)
            && (Truthy(first) ==> d.value == first)
            && (!Truthy(first) ==> d.value == Decision.AnalyseForAction(st.htmlOnly, decode))
  {
    var ex := Decision.Excerpt(html);
    var d := Decide(st, html, decode);
    CountShort(AskVisual(ex), AskHtmlOnly(ex), AskHtmlOnly(ex));
    if Truthy(Decision.AnalyseForAction(st.visual, decode)) {
      assert d.calls == [AskVisual(ex)];
    } else {
      assert d.calls == [AskVisual(ex), AskHtmlOnly(ex)];
    }
  }

  /** The effect of acting on a decision, as far as the trace and the save go. */
  ghost predicate ActShape(market: Json, v: Json, act: ActResult, a: Round)
  {
    && Count(a.events, KRead) == 0 && Count(a.events, KVisual) == 0 && Count(a.events, KHtmlOnly) == 0
    && Inner(a.events)
    && Count(a.events, KSave) == (if a.Stop? && a.reason == Extracted then 1 else 0)
    && (a.Continue? ==> Count(a.events, KClick) + Count(a.events, KType) == 1 && act == Performed)
    && (a.Stop? ==> (a.saved.Some? <==> a.reason == Extracted))
    && (a.Stop? && a.reason == Extracted ==>
          market.Str? && v.Arr? && a.saved == Some(v.items) && |v.items| > 0
          && a.events == [Save(SafeName.OutputFile(market.s), v.items)])
    && (a.Stop? ==> a.reason != NavigationFailed && a.reason != IterationsExhausted)
  }

  /** A decision object that names an action has at least one key, so it is truthy. */
  lemma NamedActionIsTruthy(fields: map<string, Json>)
    requires "action" in fields
    ensures Truthy(Obj(fields))
  {
    assert fields.Keys != {};
  }

  /**
   Acting on a decision object: a `click` or a `type` makes that one call on
   the decision's xpath, and goes round again exactly when the call was
   performed; any other action stops the loop with nothing done.
   */
  lemma ActOnObjectFacts(market: Json, fields: map<string, Json>, act: ActResult)
    requires |fields| > 0
    ensures var a := Act(market, Obj(fields), act);
            var action := Lookup(fields, "action", Null);
            var xpath := Lookup(fields, "xpath", Null);
            && ActShape(market, Obj(fields), act, a)
            && Count(a.events, KClick) + Count(a.events, KType) <= 1
            && (action == Str("click") ==> |a.events| > 0 && a.events[0] == Click(xpath) && (a.Continue? <==> act == Performed))
            && (action == Str("type") ==>
                  |a.events| > 0 && a.events[0] == TypeInto(xpath, Lookup(fields, "text", Str(""))) && (a.Continue? <==> act == Performed))
            && (action != Str("click") && action != Str("type") ==> a == Stop(UnknownAction, [], None))
  {
    var action := Lookup(fields, "action", Null);
    if action == Str("click") {
      ClickFacts(market, fields, act);
    } else if action == Str("type") {
      TypeFacts(market, fields, act);
    } else {
      assert Act(market, Obj(fields), act) == Stop(UnknownAction, [], None);
    }
  }

  /**
   A `click` decision: one click on its xpath, then the 3 s pause when it
   worked; a missing or unclickable element stops the loop, and any other
   error escapes it.
   */
  lemma ClickFacts(market: Json, fields: map<string, Json>, act: ActResult)
    requires Lookup(fields, "action", Null) == Str("click")
    ensures var a := Act(market, Obj(fields), act);
            var xpath := Lookup(fields, "xpath", Null);
            && ActShape(market, Obj(fields), act, a)
            && Count(a.events, KClick) == 1 && Count(a.events, KType) == 0
            && (act == Performed ==> a == Continue([Click(xpath), Sleep(ClickSettle)]))
            && (act == NotFound ==> a == Stop(ClickFailed, [Click(xpath)], None))
            && (act == OtherError ==> a == Stop(Raised, [Click(xpath)], None))
  {
    NamedActionIsTruthy(fields);
    var a := Act(market, Obj(fields), act);
    var xpath := Lookup(fields, "xpath", Null);
    CountShort(Click(xpath), Sleep(ClickSettle), Sleep(ClickSettle));
    assert a.events == [Click(xpath), Sleep(ClickSettle)] || a.events == [Click(xpath)];
  }

  /**
   A `type` decision: one typing of its text (empty when absent) into its
   xpath, then the 2 s pause when it worked; a missing or unclickable element
   stops the loop, and any other error escapes it.
   */
  lemma TypeFacts(market: Json, fields: map<string, Json>, act: ActResult)
    requires Lookup(fields, "action", Null) == Str("type")
    ensures var a := Act(market, Obj(fields), act);
            var xpath := Lookup(fields, "xpath", Null);
            var text := Lookup(fields, "text", Str(""));
            && ActShape(market, Obj(fields), act, a)
            && Count(a.events, KType) == 1 && Count(a.events, KClick) == 0
            && (act == Performed ==> a == Continue([TypeInto(xpath, text), Sleep(TypeSettle)]))
            && (act == NotFound ==> a == Stop(TypeFailed, [TypeInto(xpath, text)], None))
            && (act == OtherError ==> a == Stop(Raised, [TypeInto(xpath, text)], None))
  {
    NamedActionIsTruthy(fields);
    var a := Act(market, Obj(fields), act);
    var xpath := Lookup(fields, "xpath", Null);
    var text := Lookup(fields, "text", Str(""));
    CountShort(TypeInto(xpath, text), Sleep(TypeSettle), Sleep(TypeSettle));
    assert a.events == [TypeInto(xpath, text), Sleep(TypeSettle)] || a.events == [TypeInto(xpath, text)];
  }

  /**
   A non-empty list of updates: with a string market it is saved once, under
   the sanitised market, and the run ends as an extraction; any other market
   makes the save raise.
   */
  lemma ExtractFacts(market: Json, items: seq<Json>, act: ActResult)
    requires |items| > 0
    ensures var a := Act(market, Arr(items), act);
            && ActShape(market, Arr(items), act, a)
            && (market.Str? ==> a == Stop(Extracted, [Save(SafeName.OutputFile(market.s), items)], Some(items)))
            && (!market.Str? ==> a == Stop(Raised, [], None))
  {
    if market.Str? {
      var sv := Save(SafeName.OutputFile(market.s), items);
      CountShort(sv, sv, sv);
      assert Act(market, Arr(items), act) == Stop(Extracted, [sv], Some(items));
    } else {
      assert Act(market, Arr(items), act) == Stop(Raised, [], None);
    }
  }

  /**
   Acting adds no observation, model call, navigation or `quit`; it saves
   only on extraction; a falsy decision stops the loop with nothing done.
   */
  lemma ActFacts(market: Json, v: Json, act: ActResult)
    ensures ActShape(market, v, act, Act(market, v, act))
    ensures !Truthy(v) ==> Act(market, v, act) == Stop(NoDecision, [], None)
  {
    var a := Act(market, v, act);
    if !Truthy(v) {
      assert a == Stop(NoDecision, [], None);
    } else if v.Arr? {
      ExtractFacts(market, v.items, act);
    } else if v.Obj? {
      ActOnObjectFacts(market, v.fields, act);
    } else {
      assert a == Stop(Raised, [], None);
    }
  }

  /** A stopping iteration: one page read, and a save exactly when it extracts. */
  ghost predicate StopShape(market: Json, reason: Reason, ev: seq<Call>, saved: Option<seq<Json>>)
  {
    && Count(ev, KRead) == 1 && Count(ev, KVisual) <= 1 && Count(ev, KHtmlOnly) <= Count(ev, KVisual)
    && Count(ev, KSave) == (if reason == Extracted then 1 else 0) && Inner(ev)
    && (saved.Some? <==> reason == Extracted)
    && (reason == Extracted ==>
          && market.Str? && |saved.value| > 0 && |ev| > 0
          && ev[|ev| - 1] == Save(SafeName.OutputFile(market.s), saved.value))
    && reason != NavigationFailed && reason != IterationsExhausted
  }

  /** A continuing iteration: one page read, one visual call, one click or type, no save. */
  ghost predicate ContinueShape(ev: seq<Call>)
  {
    && Count(ev, KRead) == 1 && Count(ev, KVisual) == 1 && Count(ev, KHtmlOnly) <= 1
    && Count(ev, KSave) == 0 && Inner(ev)
    && Count(ev, KClick) + Count(ev, KType) == 1
  }

  /** Observing and deciding: one page read, one visual call, at most one fallback call. */
  ghost predicate DecideShape(pre: seq<Call>)
  {
    && Count(pre, KRead) == 1 && Count(pre, KVisual) == 1 && Count(pre, KHtmlOnly) <= 1
    && Count(pre, KSave) == 0 && Inner(pre) && Count(pre, KClick) == 0 && Count(pre, KType) == 0
  }

  lemma Compose(market: Json, v: Json, act: ActResult, pre: seq<Call>, a: Round)
    requires DecideShape(pre) && ActShape(market, v, act, a)
    ensures match Then(pre, a)
      case Continue(ev) => ContinueShape(ev) && act == Performed
      case Stop(reason, ev, saved) => StopShape(market, reason, ev, saved)
  {
    CountAppendAll(pre, a.events);
    if a.Stop? && a.reason == Extracted {
      assert (pre + a.events)[|pre + a.events| - 1] == a.events[0];
    }
  }

  /**
   What one iteration does: it reads the page exactly once; it saves at most
   once, and only when it extracts; it goes round again only after a click or
   a type that was performed.
   */
  lemma RoundFacts(market: Json, st: Step, decode: Decoder)
    ensures match RunRound(market, st, decode)
      case Continue(ev) => ContinueShape(ev) && st.act == Performed
      case Stop(reason, ev, saved) => StopShape(market, reason, ev, saved)
  {
    var obs := Sleep(ObserveDelay);
    CountShort(obs, ReadSource, TakeScreenshot);
    if st.html.Captured? && st.screenshot.Captured? {
      ObservedRoundFacts(market, st, st.html.value, decode);
    }
  }

  /** An iteration whose page read and screenshot both worked. */
  lemma ObservedRoundFacts(market: Json, st: Step, html: string, decode: Decoder)
    requires st.html == Captured(html) && st.screenshot.Captured?
    ensures match RunRound(market, st, decode)
      case Continue(ev) => ContinueShape(ev) && st.act == Performed
      case Stop(reason, ev, saved) => StopShape(market, reason, ev, saved)
  {
    var d := Decide(st, html, decode);
    ObserveThenDecide(st, html, decode);
    ActFacts(market, d.value, st.act);
    Compose(market, d.value, st.act, Observe + d.calls, Act(market, d.value, st.act));
  }

  /** Observing the page and deciding: one read, one visual call, at most one fallback. */
  lemma ObserveThenDecide(st: Step, html: string, decode: Decoder)
    ensures DecideShape(Observe + Decide(st, html, decode).calls)
  {
    ObserveCounts();
    FallbackDiscipline(st, html, decode);
    CountAppendAll(Observe, Decide(st, html, decode).calls);
  }

  /** The observation is one pause, one page read and one screenshot. */
  lemma ObserveCounts()
    ensures forall k :: Count(Observe, k) == (if k == KSleep || k == KRead || k == KShot then 1 else 0)
  {
    CountShort(Sleep(ObserveDelay), ReadSource, TakeScreenshot);
  }

  /** An iteration whose captures both worked: the observation, the decision's calls, then the action. */
  lemma ObservedRound(market: Json, st: Step, html: string, decode: Decoder)
    requires st.html == Captured(html) && st.screenshot.Captured?
    ensures var d := Decide(st, html, decode);
            RunRound(market, st, decode) == Then(Observe + d.calls, Act(market, d.value, st.act))
  {
  }

  /**
   An iteration whose DOM read raises stops after the pause and the read; one
   whose screenshot raises stops after the whole observation. Neither asks
   the model anything.
   */
  lemma CaptureFailuresRaise(market: Json, st: Step, decode: Decoder)
    ensures st.html.CaptureThrew? ==>
              RunRound(market, st, decode) == Stop(Raised, [Sleep(ObserveDelay), ReadSource], None)
    ensures st.html.Captured? && st.screenshot.CaptureThrew? ==>
              RunRound(market, st, decode) == Stop(Raised, Observe, None)
  {
  }

  /**
   How an observed iteration ends, by the decision the model returned (the
   visual answer, or the HTML-only answer when the visual one is falsy): a
   falsy decision stops it; a non-empty list is saved under the market's file
   and ends the run; a `click` or a `type` is carried out and goes round again
   after its pause exactly when it worked; any other action stops it.
   */
  lemma DecisionDispatch(market: Json, st: Step, html: string, decode: Decoder)
    requires st.html == Captured(html) && st.screenshot.Captured?
    ensures var d := Decide(st, html, decode);
            !Truthy(d.value) ==> RunRound(market, st, decode) == Stop(NoDecision, Observe + d.calls, None)
    ensures var d := Decide(st, html, decode);
            d.value.Arr? && |d.value.items| > 0 && market.Str? ==>
              RunRound(market, st, decode)
                == Stop(Extracted, Observe + d.calls + [Save(SafeName.OutputFile(market.s), d.value.items)], Some(d.value.items))
    ensures var d := Decide(st, html, decode);
            d.value.Arr? && |d.value.items| > 0 && !market.Str? ==>
              RunRound(market, st, decode) == Stop(Raised, Observe + d.calls, None)
    ensures var d := Decide(st, html, decode);
            Truthy(d.value) && !d.value.Arr? && !d.value.Obj? ==>
              RunRound(market, st, decode) == Stop(Raised, Observe + d.calls, None)
  {
    var d := Decide(st, html, decode);
    var v := d.value;
    var pre := Observe + d.calls;
    ObservedRound(market, st, html, decode);
    if !Truthy(v) {
      assert Act(market, v, st.act) == Stop(NoDecision, [], None);
      assert pre + [] == pre;
    } else if v.Arr? {
      ExtractFacts(market, v.items, st.act);
      assert pre + [] == pre;
    } else if !v.Obj? {
      assert Act(market, v, st.act) == Stop(Raised, [], None);
      assert pre + [] == pre;
    }
  }

  /** The object half of `DecisionDispatch`: the actions the model may name. */
  lemma ObjectDispatch(market: Json, st: Step, html: string, decode: Decoder, fields: map<string, Json>)
    requires st.html == Captured(html) && st.screenshot.Captured?
    requires Decide(st, html, decode).value == Obj(fields) && |fields| > 0
    ensures var pre := Observe + Decide(st, html, decode).calls;
            var r := RunRound(market, st, decode);
            var action := Lookup(fields, "action", Null);
            var x := Lookup(fields, "xpath", Null);
            var text := Lookup(fields, "text", Str(""));
            && (action == Str("click") ==>
                  && (st.act == Performed ==> r == Continue(pre + [Click(x), Sleep(ClickSettle)]))
                  && (st.act == NotFound ==> r == Stop(ClickFailed, pre + [Click(x)], None))
                  && (st.act == OtherError ==> r == Stop(Raised, pre + [Click(x)], None)))
            && (action == Str("type") ==>
                  && (st.act == Performed ==> r == Continue(pre + [TypeInto(x, text), Sleep(TypeSettle)]))
                  && (st.act == NotFound ==> r == Stop(TypeFailed, pre + [TypeInto(x, text)], None))
                  && (st.act == OtherError ==> r == Stop(Raised, pre + [TypeInto(x, text)], None)))
            && (action != Str("click") && action != Str("type") ==> r == Stop(UnknownAction, pre, None))
  {
    var pre := Observe + Decide(st, html, decode).calls;
    ObservedRound(market, st, html, decode);
    var action := Lookup(fields, "action", Null);
    if action == Str("click") {
      ClickFacts(market, fields, st.act);
    } else if action == Str("type") {
      TypeFacts(market, fields, st.act);
    } else {
      assert pre + [] == pre;
      ActOnObjectFacts(market, fields, st.act);
    }
  }

  /** Iteration `st` saves: both captures worked, the decision is a non-empty list, the market a string. */
  ghost predicate SavesAt(market: Json, st: Step, decode: Decoder)
  {
    && st.html.Captured? && st.screenshot.Captured?
    && var v := Decide(st, st.html.value, decode).value;
    && v.Arr? && |v.items| > 0 && market.Str?
  }

  /** An iteration ends the run as an extraction exactly when it saves, and then it saves its decision. */
  lemma RoundExtractsIff(market: Json, st: Step, decode: Decoder)
    ensures var r := RunRound(market, st, decode);
            (r.Stop? && r.reason == Extracted) <==> SavesAt(market, st, decode)
    ensures SavesAt(market, st, decode) ==>
              RunRound(market, st, decode).saved == Some(Decide(st, st.html.value, decode).value.items)
  {
    if st.html.Captured? && st.screenshot.Captured? {
      var d := Decide(st, st.html.value, decode);
      ObservedRound(market, st, st.html.value, decode);
      ActFacts(market, d.value, st.act);
      if d.value.Arr? && |d.value.items| > 0 {
        ExtractFacts(market, d.value.items, st.act);
      }
    }
  }

  /** The shape `RoundFacts` establishes for one iteration. */
  ghost predicate RoundShape(market: Json, r: Round)
  {
    match r
    case Continue(ev) => ContinueShape(ev)
    case Stop(reason, ev, saved) => StopShape(market, reason, ev, saved)
  }

  /** Every iteration has the shape `RoundFacts` gives it. */
  ghost predicate AllShaped(market: Json, round: nat -> Round)
  {
    forall j :: RoundShape(market, round(j))
  }

  /** The shape of the iterations from some point on. */
  ghost predicate LoopShape(market: Json, o: Outcome, left: nat)
  {
    && Inner(o.trace)
    && Count(o.trace, KRead) <= left
    && Count(o.trace, KHtmlOnly) <= Count(o.trace, KVisual) <= Count(o.trace, KRead)
    && Count(o.trace, KSave) == (if o.reason == Extracted then 1 else 0)
    && (o.saved.Some? <==> o.reason == Extracted)
    && (o.reason == Extracted ==>
          && market.Str? && |o.saved.value| > 0 && |o.trace| > 0
          && o.trace[|o.trace| - 1] == Save(SafeName.OutputFile(market.s), o.saved.value))
    && o.reason != NavigationFailed
    && (o.reason == IterationsExhausted ==>
          Count(o.trace, KRead) == left && Count(o.trace, KClick) + Count(o.trace, KType) == left)
  }

  /** An iteration that goes round again, followed by the rest of the loop. */
  lemma ContinueThen(market: Json, ev: seq<Call>, rest: Outcome, left: nat)
    requires ContinueShape(ev) && LoopShape(market, rest, left)
    ensures LoopShape(market, Outcome(rest.reason, ev + rest.trace, rest.saved), left + 1)
  {
    CountAppendAll(ev, rest.trace);
    if rest.reason == Extracted {
      assert (ev + rest.trace)[|ev + rest.trace| - 1] == rest.trace[|rest.trace| - 1];
    }
  }

  /** An iteration that stops ends the loop with its own shape. */
  lemma StopEnds(market: Json, reason: Reason, ev: seq<Call>, saved: Option<seq<Json>>, left: nat)
    requires StopShape(market, reason, ev, saved) && left >= 1
    ensures LoopShape(market, Outcome(reason, ev, saved), left)
  {
  }

  /**
   Iterations from `i` on, when every iteration has the shape `RoundFacts`
   gives it: at most one page read per remaining iteration, at most one
   fallback per visual call, a save exactly when the loop extracts (as its
   last call), and the bound is hit only after every remaining iteration
   performed a click or a type.
   */
  lemma {:induction false} IterationsFacts(market: Json, round: nat -> Round, i: nat)
    requires i <= MaxIterations
    requires AllShaped(market, round)
    ensures LoopShape(market, Iterations(round, i), MaxIterations - i)
    decreases MaxIterations - i
  {
    if i == MaxIterations {
      BoundShape(market, round);
    } else {
      if round(i).Continue? {
        IterationsFacts(market, round, i + 1);
      }
      IterationStep(market, round, i);
    }
  }

  /** The loop at its bound: nothing more is done. */
  lemma BoundShape(market: Json, round: nat -> Round)
    ensures LoopShape(market, Iterations(round, MaxIterations), 0)
  {
    assert Iterations(round, MaxIterations) == Outcome(IterationsExhausted, [], None);
  }

  /** One iteration in front of the rest of the loop keeps the loop's shape. */
  lemma IterationStep(market: Json, round: nat -> Round, i: nat)
    requires i < MaxIterations && RoundShape(market, round(i))
    requires round(i).Continue? ==> LoopShape(market, Iterations(round, i + 1), MaxIterations - (i + 1))
    ensures LoopShape(market, Iterations(round, i), MaxIterations - i)
  {
    var r := round(i);
    if r.Continue? {
      var rest := Iterations(round, i + 1);
      ContinueThen(market, r.events, rest, MaxIterations - (i + 1));
      assert Iterations(round, i) == Outcome(rest.reason, r.events + rest.trace, rest.saved);
    } else {
      StopEnds(market, r.reason, r.events, r.saved, MaxIterations - i);
      assert Iterations(round, i) == Outcome(r.reason, r.events, r.saved);
    }
  }

  /** The bound is hit exactly when every remaining iteration goes round again. */
  lemma {:induction false} ExhaustedIffAllContinue(round: nat -> Round, i: nat)
    requires i <= MaxIterations
    requires forall j :: round(j).Stop? ==> round(j).reason != IterationsExhausted
    ensures Iterations(round, i).reason == IterationsExhausted <==>
              forall j :: i <= j < MaxIterations ==> round(j).Continue?
    decreases MaxIterations - i
  {
    if i < MaxIterations {
      ExhaustedIffAllContinue(round, i + 1);
    }
  }

  /** The first iteration from `i` on that stops the loop, or the bound when none does. */
  function FirstStop(round: nat -> Round, i: nat): (j: nat)
    requires i <= MaxIterations
    ensures i <= j <= MaxIterations
    ensures forall l :: i <= l < j ==> round(l).Continue?
    ensures j < MaxIterations ==> round(j).Stop?
    decreases MaxIterations - i
  {
    if i == MaxIterations || round(i).Stop? then i else FirstStop(round, i + 1)
  }

  /** The calls of iterations i, i + 1, ..., j - 1, one after another. */
  ghost function RoundEvents(round: nat -> Round, i: nat, j: nat): seq<Call>
    requires i <= j
    decreases j - i
  {
    if i == j then [] else round(i).events + RoundEvents(round, i + 1, j)
  }

  /**
   The loop ends the way its first stopping iteration does, or at the bound,
   and its calls are those of every iteration up to and including that one.
   */
  lemma {:induction false} LoopEndsAtFirstStop(round: nat -> Round, i: nat)
    requires i <= MaxIterations
    ensures var o := Iterations(round, i);
            var j := FirstStop(round, i);
            && (j < MaxIterations ==> o.reason == round(j).reason && o.saved == round(j).saved)
            && (j == MaxIterations ==> o.reason == IterationsExhausted && o.saved == None)
            && o.trace == RoundEvents(round, i, j) + (if j < MaxIterations then round(j).events else [])
    decreases MaxIterations - i
  {
    LoopTrace(round, i);
    if i < MaxIterations && round(i).Continue? {
      LoopEndsAtFirstStop(round, i + 1);
    }
  }

  /** The loop's calls are those of every iteration up to and including the first that stops. */
  lemma {:induction false} LoopTrace(round: nat -> Round, i: nat)
    requires i <= MaxIterations
    ensures var j := FirstStop(round, i);
            j < MaxIterations ==> Iterations(round, i).trace == RoundEvents(round, i, j) + round(j).events
    ensures var j := FirstStop(round, i);
            j == MaxIterations ==> Iterations(round, i).trace == RoundEvents(round, i, j)
    decreases MaxIterations - i
  {
    if i == MaxIterations {
    } else if round(i).Stop? {
      assert RoundEvents(round, i, i) == [];
    } else {
      LoopTrace(round, i + 1);
      ContinueTrace(round, i, FirstStop(round, i + 1));
    }
  }

  /** One iteration that goes round again puts its calls in front of the rest. */
  lemma ContinueTrace(round: nat -> Round, i: nat, j: nat)
    requires i < MaxIterations && round(i).Continue? && i < j <= MaxIterations
    ensures Iterations(round, i).trace == round(i).events + Iterations(round, i + 1).trace
    ensures RoundEvents(round, i, j) == round(i).events + RoundEvents(round, i + 1, j)
    ensures forall t: seq<Call> :: round(i).events + (RoundEvents(round, i + 1, j) + t) == RoundEvents(round, i, j) + t
  {
  }

  /** Iteration `j` saves, and every iteration before it went round again. */
  ghost predicate ExtractsAfterContinues(market: Json, w: World, decode: Decoder, j: nat)
  {
    && SavesAt(market, w.step(j), decode)
    && forall l :: 0 <= l < j ==> RunRound(market, w.step(l), decode).Continue?
  }

  /** An iteration that saves after every earlier one went round again is the loop's first stop. */
  lemma ExtractingIterationStopsFirst(market: Json, w: World, decode: Decoder, j: nat)
    requires j < MaxIterations && ExtractsAfterContinues(market, w, decode, j)
    ensures FirstStop(Rounds(market, w, decode), 0) == j
  {
    var round := Rounds(market, w, decode);
    RoundExtractsIff(market, w.step(j), decode);
    assert round(j).Stop?;
    assert forall l :: 0 <= l < j ==> round(l).Continue?;
  }

  /**
   A run ends as an extraction exactly when navigation succeeded and some
   iteration within the bound saves after every earlier one went round again;
   what it saves is that iteration's decision.
   */
  lemma RunExtractsIff(market: Json, url: string, w: World, decode: Decoder)
    ensures var o := RunSource(market, url, w, decode);
            var nav := Navigation.GoToUrl(url, w.landing, Navigation.DefaultRetries);
            o.reason == Extracted <==>
              nav.ok && exists j :: 0 <= j < MaxIterations && ExtractsAfterContinues(market, w, decode, j)
    ensures var o := RunSource(market, url, w, decode);
            var nav := Navigation.GoToUrl(url, w.landing, Navigation.DefaultRetries);
            forall j :: 0 <= j < MaxIterations && nav.ok && ExtractsAfterContinues(market, w, decode, j) ==>
              o.saved == Some(Decide(w.step(j), w.step(j).html.value, decode).value.items)
  {
    var o := RunSource(market, url, w, decode);
    var nav := Navigation.GoToUrl(url, w.landing, Navigation.DefaultRetries);
    var round := Rounds(market, w, decode);
    if nav.ok {
      var loop := Iterations(round, 0);
      assert o.reason == loop.reason && o.saved == loop.saved;
      LoopEndsAtFirstStop(round, 0);
      var k := FirstStop(round, 0);
      if k < MaxIterations {
        RoundExtractsIff(market, w.step(k), decode);
        assert round(k) == RunRound(market, w.step(k), decode);
      }
      forall j | 0 <= j < MaxIterations && ExtractsAfterContinues(market, w, decode, j)
        ensures j == k
      {
        ExtractingIterationStopsFirst(market, w, decode, j);
      }
      if o.reason == Extracted {
        forall l | 0 <= l < k ensures RunRound(market, w.step(l), decode).Continue? {
          assert round(l) == RunRound(market, w.step(l), decode);
        }
        assert ExtractsAfterContinues(market, w, decode, k);
      }
    } else {
      assert o.reason == NavigationFailed;
    }
  }

  /** Every iteration of a real world has the shape `RoundFacts` gives it. */
  lemma AllRoundsShaped(market: Json, w: World, decode: Decoder)
    ensures forall j :: RoundShape(market, Rounds(market, w, decode)(j))
  {
    forall j ensures RoundShape(market, Rounds(market, w, decode)(j)) {
      RoundFacts(market, w.step(j), decode);
    }
  }

  /** Navigation leaves only gets and sleeps in the trace, and at most three gets. */
  lemma NavigationCounts(url: string, w: World)
    ensures var nav := Navigation.GoToUrl(url, w.landing, Navigation.DefaultRetries);
            && Count(nav.events, KGet) <= Navigation.DefaultRetries
            && forall k :: k != KGet && k != KSleep ==> Count(nav.events, k) == 0
  {
    var nav := Navigation.GoToUrl(url, w.landing, Navigation.DefaultRetries);
    Navigation.GoToUrlBehaviour(url, w.landing, Navigation.DefaultRetries);
    forall k | k != KGet && k != KSleep
      ensures Count(nav.events, k) == 0
    {
      CountOthers(nav.events, k);
    }
  }

  /** Everything a run promises, in one place; the lemmas below pick it apart. */
  ghost predicate RunShape(market: Json, nav: Navigation.NavResult, o: Outcome)
  {
    && |o.trace| >= 1 && o.trace[|o.trace| - 1] == Quit && Count(o.trace, KQuit) == 1
    && nav.events <= o.trace
    && Count(o.trace, KGet) == Count(nav.events, KGet)
    && (o.reason == NavigationFailed <==> !nav.ok)
    && (!nav.ok ==> o.trace == nav.events + [Quit] && o.saved.None?)
    && Count(o.trace, KRead) <= MaxIterations
    && Count(o.trace, KHtmlOnly) <= Count(o.trace, KVisual) <= Count(o.trace, KRead)
    && Count(o.trace, KSave) == (if o.reason == Extracted then 1 else 0)
    && (o.saved.Some? <==> o.reason == Extracted)
    && (o.reason == Extracted ==>
          && market.Str? && |o.saved.value| > 0 && |o.trace| >= 2
          && o.trace[|o.trace| - 2] == Save(SafeName.OutputFile(market.s), o.saved.value))
    && (o.reason == IterationsExhausted ==>
          Count(o.trace, KRead) == MaxIterations && Count(o.trace, KClick) + Count(o.trace, KType) == MaxIterations)
  }

  /** Navigation calls only: gets and sleeps. */
  ghost predicate NavOnly(nav: Navigation.NavResult)
  {
    forall k :: k != KGet && k != KSleep ==> Count(nav.events, k) == 0
  }

  lemma ComposeFailedRun(market: Json, nav: Navigation.NavResult)
    requires NavOnly(nav) && !nav.ok
    ensures RunShape(market, nav, Outcome(NavigationFailed, nav.events + [Quit], None))
  {
    CountShort(Quit, Quit, Quit);
    CountAppendAll(nav.events, [Quit]);
  }

  lemma ComposeRun(market: Json, nav: Navigation.NavResult, loop: Outcome)
    requires NavOnly(nav) && nav.ok && LoopShape(market, loop, MaxIterations)
    ensures RunShape(market, nav, Outcome(loop.reason, nav.events + loop.trace + [Quit], loop.saved))
  {
    CountShort(Quit, Quit, Quit);
    CountAppendAll(nav.events, loop.trace);
    CountAppendAll(nav.events + loop.trace, [Quit]);
    var t := nav.events + loop.trace + [Quit];
    assert t == nav.events + (loop.trace + [Quit]);
    if loop.reason == Extracted {
      assert t[|t| - 2] == loop.trace[|loop.trace| - 1];
    }
  }

  /** The loop from the first iteration has the shape `IterationsFacts` promises. */
  lemma LoopFromStart(market: Json, w: World, decode: Decoder)
    ensures LoopShape(market, Iterations(Rounds(market, w, decode), 0), MaxIterations)
  {
    AllRoundsShaped(market, w, decode);
    IterationsFacts(market, Rounds(market, w, decode), 0);
  }

  lemma RunSourceFacts(market: Json, url: string, w: World, decode: Decoder)
    ensures RunShape(market, Navigation.GoToUrl(url, w.landing, Navigation.DefaultRetries), RunSource(market, url, w, decode))
  {
    var nav := Navigation.GoToUrl(url, w.landing, Navigation.DefaultRetries);
    NavigationCounts(url, w);
    if nav.ok {
      LoopFromStart(market, w, decode);
      ComposeRun(market, nav, Iterations(Rounds(market, w, decode), 0));
    } else {
      ComposeFailedRun(market, nav);
    }
  }

  /** `browser.quit()` is called exactly once, as the last call, on every way out. */
  lemma QuitOnEveryExit(market: Json, url: string, w: World, decode: Decoder)
    ensures var o := RunSource(market, url, w, decode);
            |o.trace| > 0 && o.trace[|o.trace| - 1] == Quit && Count(o.trace, KQuit) == 1
  {
    RunSourceFacts(market, url, w, decode);
  }

  /**
   A failed navigation ends the run with nothing but the navigation attempts
   and `quit`: no page is read, no model is asked, nothing is saved.
   */
  lemma NavigationFailureSkipsLoop(market: Json, url: string, w: World, decode: Decoder)
    ensures var o := RunSource(market, url, w, decode);
            var nav := Navigation.GoToUrl(url, w.landing, Navigation.DefaultRetries);
            && (o.reason == NavigationFailed <==> !nav.ok)
            && (!nav.ok ==>
                  && o.trace == nav.events + [Quit] && o.saved.None?
                  && Count(o.trace, KRead) == 0 && Count(o.trace, KVisual) == 0
                  && Count(o.trace, KHtmlOnly) == 0 && Count(o.trace, KSave) == 0)
  {
    RunSourceFacts(market, url, w, decode);
    NavigationCounts(url, w);
    var nav := Navigation.GoToUrl(url, w.landing, Navigation.DefaultRetries);
    CountShort(Quit, Quit, Quit);
    CountAppendAll(nav.events, [Quit]);
  }

  /**
   The page is navigated to once, at the start: every `driver.get` of the run
   belongs to that one navigation, so there are at most three, and later
   iterations re-observe the page without navigating again.
   */
  lemma NavigatesOnlyAtStart(market: Json, url: string, w: World, decode: Decoder)
    ensures var o := RunSource(market, url, w, decode);
            var nav := Navigation.GoToUrl(url, w.landing, Navigation.DefaultRetries);
            && nav.events <= o.trace
            && Count(o.trace, KGet) == Count(nav.events, KGet) <= Navigation.DefaultRetries
  {
    RunSourceFacts(market, url, w, decode);
    NavigationCounts(url, w);
  }

  /**
   At most five iterations: at most five page reads, at most one visual call
   per read and at most one HTML-only call per visual call.
   */
  lemma AtMostFiveIterations(market: Json, url: string, w: World, decode: Decoder)
    ensures var o := RunSource(market, url, w, decode);
            && Count(o.trace, KRead) <= MaxIterations
            && Count(o.trace, KHtmlOnly) <= Count(o.trace, KVisual) <= Count(o.trace, KRead)
  {
    RunSourceFacts(market, url, w, decode);
  }

  /**
   The only save is of a non-empty list the model returned: it happens at most
   once, exactly when the run ends `Extracted`, right before `quit`, into the
   file named after the sanitised market.
   */
  lemma SaveOnlyOnExtraction(market: Json, url: string, w: World, decode: Decoder)
    ensures var o := RunSource(market, url, w, decode);
            && Count(o.trace, KSave) == (if o.reason == Extracted then 1 else 0)
            && (o.saved.Some? <==> o.reason == Extracted)
            && (o.reason == Extracted ==>
                  && market.Str? && |o.saved.value| > 0 && |o.trace| >= 2
                  && o.trace[|o.trace| - 2] == Save(SafeName.OutputFile(market.s), o.saved.value))
  {
    RunSourceFacts(market, url, w, decode);
  }

  /** No single iteration reports the iteration bound. */
  lemma RoundsNeverExhaust(market: Json, w: World, decode: Decoder)
    ensures var round := Rounds(market, w, decode);
            forall j :: round(j).Stop? ==> round(j).reason != IterationsExhausted
  {
    var round := Rounds(market, w, decode);
    forall j | round(j).Stop? ensures round(j).reason != IterationsExhausted {
      RoundFacts(market, w.step(j), decode);
    }
  }

  /**
   The run ends at the iteration bound exactly when navigation worked and each
   of the five iterations went round again (each performed a click or a type);
   it has then read the page five times.
   */
  lemma ExhaustionMeansFiveActions(market: Json, url: string, w: World, decode: Decoder)
    ensures var o := RunSource(market, url, w, decode);
            var nav := Navigation.GoToUrl(url, w.landing, Navigation.DefaultRetries);
            var round := Rounds(market, w, decode);
            && (o.reason == IterationsExhausted <==>
                  nav.ok && forall j :: 0 <= j < MaxIterations ==> round(j).Continue?)
            && (o.reason == IterationsExhausted ==>
                  Count(o.trace, KRead) == MaxIterations
                  && Count(o.trace, KClick) + Count(o.trace, KType) == MaxIterations)
  {
    RunSourceFacts(market, url, w, decode);
    RoundsNeverExhaust(market, w, decode);
    ExhaustedIffAllContinue(Rounds(market, w, decode), 0);
  }
}
