/** Whole runs of the decision loop against particular scripted worlds. */
module Scenarios {
  import opened Wrappers
  import opened Json
  import opened Trace
  import Decision
  import Navigation
  import SafeName
  import opened Agent
  import LoopFacts

  /** The page loads on the first attempt. */
  lemma LoadsAtOnce(url: string, w: World)
    requires Navigation.IsValidLanding(w.landing(0))
    ensures Navigation.GoToUrl(url, w.landing, Navigation.DefaultRetries) == Navigation.NavResult(true, [Get(url)])
  {
  }

  /**
   An iteration whose visual answer asks for a click that works, whatever
   else the answer carries: it clicks the answer's xpath and pauses.
   */
  lemma ClickRound(m: Json, st: Step, decode: Decoder, fields: map<string, Json>)
    requires st.html.Captured? && st.screenshot.Captured?
    requires Decision.AnalyseForAction(st.visual, decode) == Obj(fields)
    requires Lookup(fields, "action", Null) == Str("click")
    requires st.act == Performed
    ensures RunRound(m, st, decode)
              == Continue(Observe + [AskVisual(Decision.Excerpt(st.html.value)),
                                     Click(Lookup(fields, "xpath", Null)), Sleep(ClickSettle)])
  {
    var ex := Decision.Excerpt(st.html.value);
    LoopFacts.NamedActionIsTruthy(fields);
    assert Decide(st, st.html.value, decode) == Decided(Obj(fields), [AskVisual(ex)]);
    LoopFacts.ObjectDispatch(m, st, st.html.value, decode, fields);
  }

  /**
   An iteration whose visual answer asks for typing that works, whatever else
   the answer carries: it types the answer's text (empty when absent) into its
   xpath and pauses.
   */
  lemma TypeRound(m: Json, st: Step, decode: Decoder, fields: map<string, Json>)
    requires st.html.Captured? && st.screenshot.Captured?
    requires Decision.AnalyseForAction(st.visual, decode) == Obj(fields)
    requires Lookup(fields, "action", Null) == Str("type")
    requires st.act == Performed
    ensures RunRound(m, st, decode)
              == Continue(Observe + [AskVisual(Decision.Excerpt(st.html.value)),
                                     TypeInto(Lookup(fields, "xpath", Null), Lookup(fields, "text", Str(""))),
                                     Sleep(TypeSettle)])
  {
    var ex := Decision.Excerpt(st.html.value);
    LoopFacts.NamedActionIsTruthy(fields);
    assert Decide(st, st.html.value, decode) == Decided(Obj(fields), [AskVisual(ex)]);
    LoopFacts.ObjectDispatch(m, st, st.html.value, decode, fields);
  }

  /**
   An iteration whose visual answer is falsy but whose HTML-only answer asks
   for a click that works: both analysers are asked, and the loop goes round
   again after the click.
   */
  lemma FallbackClickRound(m: Json, st: Step, decode: Decoder, fields: map<string, Json>)
    requires st.html.Captured? && st.screenshot.Captured?
    requires !Truthy(Decision.AnalyseForAction(st.visual, decode))
    requires Decision.AnalyseForAction(st.htmlOnly, decode) == Obj(fields)
    requires Lookup(fields, "action", Null) == Str("click")
    requires st.act == Performed
    ensures var ex := Decision.Excerpt(st.html.value);
            RunRound(m, st, decode)
              == Continue(Observe + [AskVisual(ex), AskHtmlOnly(ex), Click(Lookup(fields, "xpath", Null)), Sleep(ClickSettle)])
  {
    var ex := Decision.Excerpt(st.html.value);
    LoopFacts.NamedActionIsTruthy(fields);
    assert Decide(st, st.html.value, decode) == Decided(Obj(fields), [AskVisual(ex), AskHtmlOnly(ex)]);
    LoopFacts.ObjectDispatch(m, st, st.html.value, decode, fields);
  }

  /** An iteration whose visual answer is a non-empty list of updates. */
  lemma ExtractRound(m: string, st: Step, decode: Decoder, u: seq<Json>)
    requires st.html.Captured? && st.screenshot.Captured?
    requires Decision.AnalyseForAction(st.visual, decode) == Arr(u) && |u| > 0
    ensures RunRound(Str(m), st, decode)
              == Stop(Extracted, Observe + [AskVisual(Decision.Excerpt(st.html.value)), Save(SafeName.OutputFile(m), u)], Some(u))
  {
    var ex := Decision.Excerpt(st.html.value);
    assert Decide(st, st.html.value, decode).calls == [AskVisual(ex)];
  }

  /** Two iterations that go round again, then one that stops. */
  lemma ThreeIterations(round: nat -> Round, a: seq<Call>, b: seq<Call>, reason: Reason, c: seq<Call>, saved: Option<seq<Json>>)
    requires round(0) == Continue(a) && round(1) == Continue(b) && round(2) == Stop(reason, c, saved)
    ensures Iterations(round, 0) == Outcome(reason, a + b + c, saved)
  {
    assert Iterations(round, 2) == Outcome(reason, c, saved);
    assert Iterations(round, 1) == Outcome(reason, b + c, saved);
    assert a + (b + c) == a + b + c;
  }

  /** A run whose navigation succeeds at once is that navigation, the loop, and `quit`. */
  lemma RunAfterNavigation(m: Json, url: string, w: World, decode: Decoder)
    requires Navigation.IsValidLanding(w.landing(0))
    ensures var loop := Iterations(Rounds(m, w, decode), 0);
            RunSource(m, url, w, decode) == Outcome(loop.reason, [Get(url)] + loop.trace + [Quit], loop.saved)
  {
    LoadsAtOnce(url, w);
  }

  /**
   The model asks for a click, then for typing, then returns updates: the run
   clicks, types, saves the updates once and quits once, in that order.
   */
  lemma ClickTypeExtract(m: string, url: string, w: World, decode: Decoder,
                         click: map<string, Json>, typing: map<string, Json>, u: seq<Json>)
    requires Navigation.IsValidLanding(w.landing(0))
    requires forall j :: 0 <= j < 3 ==> w.step(j).html.Captured? && w.step(j).screenshot.Captured?
    requires Decision.AnalyseForAction(w.step(0).visual, decode) == Obj(click)
    requires Lookup(click, "action", Null) == Str("click") && w.step(0).act == Performed
    requires Decision.AnalyseForAction(w.step(1).visual, decode) == Obj(typing)
    requires Lookup(typing, "action", Null) == Str("type") && w.step(1).act == Performed
    requires Decision.AnalyseForAction(w.step(2).visual, decode) == Arr(u) && |u| > 0
    ensures var o := RunSource(Str(m), url, w, decode);
            var r0 := Observe + [AskVisual(Decision.Excerpt(w.step(0).html.value)),
                                 Click(Lookup(click, "xpath", Null)), Sleep(ClickSettle)];
            var r1 := Observe + [AskVisual(Decision.Excerpt(w.step(1).html.value)),
                                 TypeInto(Lookup(typing, "xpath", Null), Lookup(typing, "text", Str(""))), Sleep(TypeSettle)];
            var r2 := Observe + [AskVisual(Decision.Excerpt(w.step(2).html.value)), Save(SafeName.OutputFile(m), u)];
            && o.reason == Extracted
            && o.saved == Some(u)
            && o.trace == [Get(url)] + (r0 + r1 + r2) + [Quit]
  {
    var r0 := Observe + [AskVisual(Decision.Excerpt(w.step(0).html.value)),
                         Click(Lookup(click, "xpath", Null)), Sleep(ClickSettle)];
    var r1 := Observe + [AskVisual(Decision.Excerpt(w.step(1).html.value)),
                         TypeInto(Lookup(typing, "xpath", Null), Lookup(typing, "text", Str(""))), Sleep(TypeSettle)];
    var r2 := Observe + [AskVisual(Decision.Excerpt(w.step(2).html.value)), Save(SafeName.OutputFile(m), u)];
    var round := Rounds(Str(m), w, decode);
    assert Iterations(round, 0) == Outcome(Extracted, r0 + r1 + r2, Some(u)) by {
      assert round(0) == Continue(r0) by { ClickRound(Str(m), w.step(0), decode, click); }
      assert round(1) == Continue(r1) by { TypeRound(Str(m), w.step(1), decode, typing); }
      assert round(2) == Stop(Extracted, r2, Some(u)) by { ExtractRound(m, w.step(2), decode, u); }
      ThreeIterations(round, r0, r1, Extracted, r2, Some(u));
    }
    RunAfterNavigation(Str(m), url, w, decode);
  }

  /**
   The model answers `[]` with the screenshot and `{}` without: the fallback is
   asked exactly once, the run stops without saving, and quits.
   */
  lemma EmptyAnswersStop(m: Json, url: string, w: World, decode: Decoder)
    requires Navigation.IsValidLanding(w.landing(0))
    requires w.step(0).html.Captured? && w.step(0).screenshot.Captured?
    requires Decision.AnalyseForAction(w.step(0).visual, decode) == EmptyArray
    requires Decision.AnalyseForAction(w.step(0).htmlOnly, decode) == EmptyObject
    ensures var o := RunSource(m, url, w, decode);
            var ex := Decision.Excerpt(w.step(0).html.value);
            && o.reason == NoDecision
            && o.saved.None?
            && o.trace == [Get(url)] + Observe + [AskVisual(ex), AskHtmlOnly(ex)] + [Quit]
  {
    LoadsAtOnce(url, w);
    var round := Rounds(m, w, decode);
    var ex := Decision.Excerpt(w.step(0).html.value);
    assert round(0) == Stop(NoDecision, Observe + [AskVisual(ex), AskHtmlOnly(ex)], None);
  }

  /** Both captures work, the visual answer asks for a click, and the click works. */
  ghost predicate AsksForWorkingClick(st: Step, decode: Decoder)
  {
    && st.html.Captured? && st.screenshot.Captured? && st.act == Performed
    && var v := Decision.AnalyseForAction(st.visual, decode);
    && v.Obj? && Lookup(v.fields, "action", Null) == Str("click")
  }

  /**
   A model that asks for a click that works on every iteration runs the loop
   to its bound: five observations, five clicks, nothing saved.
   */
  lemma EndlessClicksHitTheBound(m: Json, url: string, w: World, decode: Decoder)
    requires Navigation.IsValidLanding(w.landing(0))
    requires forall j :: 0 <= j < MaxIterations ==> AsksForWorkingClick(w.step(j), decode)
    ensures var o := RunSource(m, url, w, decode);
            && o.reason == IterationsExhausted
            && o.saved.None?
            && Count(o.trace, KRead) == MaxIterations
            && Count(o.trace, KClick) + Count(o.trace, KType) == MaxIterations
            && Count(o.trace, KSave) == 0
  {
    LoadsAtOnce(url, w);
    WorkingClicksContinue(m, w, decode);
    LoopFacts.ExhaustionMeansFiveActions(m, url, w, decode);
    var o := RunSource(m, url, w, decode);
    assert o.reason == IterationsExhausted;
    LoopFacts.SaveOnlyOnExtraction(m, url, w, decode);
  }

  /** Iterations that each ask for a click that works all go round again. */
  lemma WorkingClicksContinue(m: Json, w: World, decode: Decoder)
    requires forall j :: 0 <= j < MaxIterations ==> AsksForWorkingClick(w.step(j), decode)
    ensures forall j :: 0 <= j < MaxIterations ==> Rounds(m, w, decode)(j).Continue?
  {
    forall j | 0 <= j < MaxIterations ensures Rounds(m, w, decode)(j).Continue? {
      var st := w.step(j);
      assert AsksForWorkingClick(st, decode);
      ClickRound(m, st, decode, Decision.AnalyseForAction(st.visual, decode).fields);
    }
  }
}
