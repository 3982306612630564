/**
 The observable calls one run of the crawler makes on its collaborators
 (browser, language model, result store, clock), in the order it makes them.
 */
module Trace {
  import opened Json

  datatype Call =
    | Get(url: string)                        // driver.get in one navigation attempt
    | Sleep(seconds: nat)                     // time.sleep
    | ReadSource                              // driver.page_source
    | TakeScreenshot                          // driver.get_screenshot_as_png
    | AskVisual(htmlExcerpt: string)          // model call with HTML and screenshot
    | AskHtmlOnly(htmlExcerpt: string)        // model call with HTML only
    | Click(xpath: Json)                      // wait for the element, then click
    | TypeInto(xpath: Json, text: Json)       // wait for the element, clear, send keys
    | Save(file: string, updates: seq<Json>)  // save_results writes the updates
    | Quit                                    // browser.quit

  /** The kind of a call, ignoring its arguments. */
  datatype Kind = KGet | KSleep | KRead | KShot | KVisual | KHtmlOnly | KClick | KType | KSave | KQuit

  function KindOf(c: Call): Kind
  {
    match c
    case Get(_) => KGet
    case Sleep(_) => KSleep
    case ReadSource => KRead
    case TakeScreenshot => KShot
    case AskVisual(_) => KVisual
    case AskHtmlOnly(_) => KHtmlOnly
    case Click(_) => KClick
    case TypeInto(_, _) => KType
    case Save(_, _) => KSave
    case Quit => KQuit
  }

  /** How many calls of kind `k` the trace holds. */
  function Count(t: seq<Call>, k: Kind): nat
  {
    if |t| == 0 then 0 else (if KindOf(t[0]) == k then 1 else 0) + Count(t[1..], k)
  }

  /** The delays requested from the clock, in order. */
  function Delays(t: seq<Call>): seq<nat>
  {
    if |t| == 0 then []
    else (match t[0] case Sleep(n) => [n] case _ => []) + Delays(t[1..])
  }

  lemma {:induction false} CountAppend(a: seq<Call>, b: seq<Call>, k: Kind)
    ensures Count(a + b, k) == Count(a, k) + Count(b, k)
    decreases |a|
  {
    if |a| > 0 {
      assert (a + b)[1..] == a[1..] + b;
      CountAppend(a[1..], b, k);
    } else {
      assert a + b == b;
    }
  }

  lemma {:induction false} DelaysAppend(a: seq<Call>, b: seq<Call>)
    ensures Delays(a + b) == Delays(a) + Delays(b)
    decreases |a|
  {
    if |a| > 0 {
      assert (a + b)[1..] == a[1..] + b;
      DelaysAppend(a[1..], b);
    } else {
      assert a + b == b;
    }
  }

  lemma CountSingle(c: Call, k: Kind)
    ensures Count([c], k) == if KindOf(c) == k then 1 else 0
  {
    assert [c][1..] == [];
  }

  lemma DelaysSingle(c: Call)
    ensures Delays([c]) == if c.Sleep? then [c.seconds] else []
  {
    assert [c][1..] == [];
  }

  /** Counts of a concatenation, for every kind at once. */
  lemma CountAppendAll(a: seq<Call>, b: seq<Call>)
    ensures forall k :: Count(a + b, k) == Count(a, k) + Count(b, k)
  {
    forall k {
      CountAppend(a, b, k);
    }
  }

  /** One when `c` is of kind `k`. */
  function Ind(c: Call, k: Kind): nat
  {
    if KindOf(c) == k then 1 else 0
  }

  /** Counts of short literal traces. */
  lemma CountShort(x: Call, y: Call, z: Call)
    ensures forall k :: Count([x], k) == Ind(x, k)
    ensures forall k :: Count([x, y], k) == Ind(x, k) + Ind(y, k)
    ensures forall k :: Count([x, y, z], k) == Ind(x, k) + Ind(y, k) + Ind(z, k)
  {
    forall k
      ensures Count([x], k) == Ind(x, k)
      ensures Count([x, y], k) == Ind(x, k) + Ind(y, k)
      ensures Count([x, y, z], k) == Ind(x, k) + Ind(y, k) + Ind(z, k)
    {
      assert [x][1..] == [];
      assert [y][1..] == [];
      assert [z][1..] == [];
      assert Count([z], k) == Ind(z, k);
      assert Count([y], k) == Ind(y, k);
      assert [x, y][1..] == [y];
      assert [y, z][1..] == [z];
      assert Count([y, z], k) == Ind(y, k) + Ind(z, k);
      assert [x, y, z][1..] == [y, z];
    }
  }

  /** In a trace of gets and sleeps only, every other kind counts zero. */
  lemma {:induction false} CountOthers(t: seq<Call>, k: Kind)
    ensures Count(t, KGet) + Count(t, KSleep) == |t| ==>
      Count(t, k) == (if k == KGet then Count(t, KGet) else if k == KSleep then Count(t, KSleep) else 0)
    decreases |t|
  {
    if |t| > 0 {
      CountOthers(t[1..], k);
      CountBound(t[1..], KGet, KSleep);
    }
  }

  /** Two different kinds never count more than the trace length. */
  lemma {:induction false} CountBound(t: seq<Call>, a: Kind, b: Kind)
    requires a != b
    ensures Count(t, a) + Count(t, b) <= |t|
    decreases |t|
  {
    if |t| > 0 {
      CountBound(t[1..], a, b);
    }
  }
}
