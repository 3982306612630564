/**
 The tolerant JSON-span search the crawler runs on free-form model text: a
 `re.search` with DOTALL for a greedy bracketed group. The search is not
 bracket-balanced: a match begins at the earliest opener that has a closer of
 its kind somewhere after it, and runs to the LAST such closer in the text.
 */
module JsonSpan {
  import opened Wrappers

  /** The two patterns in use: brackets only, or brackets then braces. */
  datatype Pattern = ArrayOnly | ArrayOrObject

  /** A character that one of the pattern's alternatives can start with. */
  predicate IsOpener(p: Pattern, c: char)
  {
    c == '[' || (p == ArrayOrObject && c == '{')
  }

  /** The closer an alternative must end with. */
  function CloserOf(c: char): char
  {
    if c == '[' then ']' else '}'
  }

  /** Some closer of the kind the opener at `i` needs occurs after `i`. */
  predicate ClosedAfter(s: string, i: nat)
    requires i < |s|
  {
    exists j :: i < j < |s| && s[j] == CloserOf(s[i])
  }

  /** The regex can begin a match at index `i`. */
  predicate CanStartAt(s: string, p: Pattern, i: int)
  {
    0 <= i < |s| && IsOpener(p, s[i]) && ClosedAfter(s, i)
  }

  /** The half-open index range `s[start..end]` of a match. */
  datatype Span = Span(start: nat, end: nat)

  /**
   What `re.search` returns for the greedy pattern: the match starts at the
   earliest index where a match can start, and ends just after the last closer
   of the kind its opener needs.
   */
  predicate IsSearchResult(s: string, p: Pattern, sp: Span)
  {
    && CanStartAt(s, p, sp.start)
    && (forall i :: 0 <= i < sp.start ==> !CanStartAt(s, p, i))
    && sp.start < sp.end <= |s|
    && s[sp.end - 1] == CloserOf(s[sp.start])
    && (forall j :: sp.end <= j < |s| ==> s[j] != CloserOf(s[sp.start]))
  }

  /** Index of the last occurrence of `c` in `s`, or -1. */
  function LastIndexOf(s: string, c: char): (r: int)
    ensures -1 <= r < |s|
    ensures 0 <= r ==> s[r] == c
    ensures forall j :: r < j < |s| ==> s[j] != c
  {
    if |s| == 0 then -1
    else if s[|s| - 1] == c then |s| - 1
    else LastIndexOf(s[..|s| - 1], c)
  }

  /** The scan `re.search` performs: try each start index in turn. */
  function FirstStart(s: string, p: Pattern, from: nat): (r: Option<nat>)
    requires from <= |s|
    ensures r.Some? ==> from <= r.value < |s| && CanStartAt(s, p, r.value)
    ensures forall i :: from <= i < |s| && (r.None? || i < r.value) ==> !CanStartAt(s, p, i)
    decreases |s| - from
  {
    if from == |s| then None
    else if IsOpener(p, s[from]) && LastIndexOf(s, CloserOf(s[from])) > from then Some(from)
    else FirstStart(s, p, from + 1)
  }

  /** The span `re.search` matches, if any. */
  function Locate(s: string, p: Pattern): (r: Option<Span>)
    ensures r.Some? ==> IsSearchResult(s, p, r.value)
    ensures r.None? <==> forall i :: 0 <= i < |s| ==> !CanStartAt(s, p, i)
  {
    match FirstStart(s, p, 0)
    case None => None
    case Some(i) => Some(Span(i, LastIndexOf(s, CloserOf(s[i])) + 1))
  }

  /** `match.group(1)`: the matched text, if any. */
  function Search(s: string, p: Pattern): (r: Option<string>)
    ensures r.None? <==> forall i :: 0 <= i < |s| ==> !CanStartAt(s, p, i)
    ensures r.Some? ==>
      && 2 <= |r.value|
      && IsOpener(p, r.value[0])
      && r.value[|r.value| - 1] == CloserOf(r.value[0])
      && exists sp :: IsSearchResult(s, p, sp) && r.value == s[sp.start..sp.end]
  {
    match Locate(s, p)
    case None => None
    case Some(sp) => Some(s[sp.start..sp.end])
  }

  /** At most one span satisfies the description of a search result. */
  lemma SearchResultUnique(s: string, p: Pattern, a: Span, b: Span)
    requires IsSearchResult(s, p, a) && IsSearchResult(s, p, b)
    ensures a == b
  {
    assert a.start == b.start by {
      if a.start != b.start {
        assert false;
      }
    }
    assert a.end == b.end by {
      if a.end != b.end {
        assert false;
      }
    }
  }

  /** `Locate` computes exactly the search result, in both directions. */
  lemma LocateIsReSearch(s: string, p: Pattern, sp: Span)
    ensures Locate(s, p) == Some(sp) <==> IsSearchResult(s, p, sp)
  {
    if IsSearchResult(s, p, sp) {
      assert CanStartAt(s, p, sp.start);
      SearchResultUnique(s, p, sp, Locate(s, p).value);
    }
  }

  /**
   Prose around one array, where the prose before holds no opener and the
   prose after holds no `]`, yields exactly that array.
   */
  lemma EmbeddedArrayIsFound(pre: string, a: string, post: string, p: Pattern)
    requires forall i :: 0 <= i < |pre| ==> !IsOpener(p, pre[i])
    requires 2 <= |a| && a[0] == '[' && a[|a| - 1] == ']'
    requires forall j :: 0 <= j < |post| ==> post[j] != ']'
    ensures Search(pre + a + post, p) == Some(a)
  {
    var s := pre + a + post;
    var sp := Span(|pre|, |pre| + |a|);
    assert s[|pre|] == '[';
    assert s[|pre| + |a| - 1] == ']';
    assert ClosedAfter(s, |pre|);
    assert forall i :: 0 <= i < |pre| ==> s[i] == pre[i];
    assert forall j :: |pre| + |a| <= j < |s| ==> s[j] == post[j - |pre| - |a|];
    assert IsSearchResult(s, p, sp);
    LocateIsReSearch(s, p, sp);
    assert s[sp.start..sp.end] == a;
  }

  /** The search is greedy: two arrays in one reply come back as one span. */
  lemma GreedyAcrossArrays()
    ensures Search("[a] x [b]", ArrayOrObject) == Some("[a] x [b]")
  {
    var s := "[a] x [b]";
    assert s[2] == ']';
    assert ClosedAfter(s, 0);
    assert IsSearchResult(s, ArrayOrObject, Span(0, 9));
    LocateIsReSearch(s, ArrayOrObject, Span(0, 9));
    assert s[0..9] == s;
  }

  /** An opener with no closer of its kind after it is passed over. */
  lemma UnclosedOpenerIsSkipped()
    ensures Search("{ [x]", ArrayOrObject) == Some("[x]")
  {
    var s := "{ [x]";
    assert !ClosedAfter(s, 0);
    assert !CanStartAt(s, ArrayOrObject, 1);
    assert s[4] == ']';
    assert ClosedAfter(s, 2);
    assert IsSearchResult(s, ArrayOrObject, Span(2, 5));
    LocateIsReSearch(s, ArrayOrObject, Span(2, 5));
    assert s[2..5] == "[x]";
  }

  /** With brackets only, an object is never a match. */
  lemma ArrayOnlyIgnoresObjects(s: string)
    requires forall i :: 0 <= i < |s| ==> s[i] != '['
    ensures Search(s, ArrayOnly) == None
  {
  }
}
