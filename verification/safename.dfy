/**
 The file name `save_results` derives from a market identifier: every
 character outside ASCII letters, digits, `_` and `-` becomes `_`.
 */
module SafeName {

  predicate IsSafeChar(c: char)
  {
    ('a' <= c <= 'z') || ('A' <= c <= 'Z') || ('0' <= c <= '9') || c == '_' || c == '-'
  }

  predicate IsSafe(s: string)
  {
    forall i :: 0 <= i < |s| ==> IsSafeChar(s[i])
  }

  /** The regex substitution, one character at a time. */
  function Sanitise(s: string): (r: string)
    ensures |r| == |s|
    ensures IsSafe(r)
    ensures forall i :: 0 <= i < |s| && IsSafeChar(s[i]) ==> r[i] == s[i]
    ensures forall i :: 0 <= i < |s| && !IsSafeChar(s[i]) ==> r[i] == '_'
  {
    if |s| == 0 then ""
    else [if IsSafeChar(s[0]) then s[0] else '_'] + Sanitise(s[1..])
  }

  /** `results/<safe market>_updates.json`. */
  function OutputFile(market: string): (r: string)
    ensures |r| == |market| + 21
    ensures r[..8] == "results/" && r[8 + |market|..] == "_updates.json"
    ensures IsSafe(r[8..8 + |market|])
    ensures forall i :: 0 <= i < |market| ==>
              r[8 + i] == (if IsSafeChar(market[i]) then market[i] else '_')
  {
    "results/" + Sanitise(market) + "_updates.json"
  }

  /** A name is left unchanged exactly when it is already safe. */
  lemma SanitiseFixesExactlySafe(s: string)
    ensures Sanitise(s) == s <==> IsSafe(s)
  {
    if IsSafe(s) {
      assert forall i :: 0 <= i < |s| ==> Sanitise(s)[i] == s[i];
    }
  }

  /** Sanitising twice is sanitising once. */
  lemma SanitiseIdempotent(s: string)
    ensures Sanitise(Sanitise(s)) == Sanitise(s)
  {
    SanitiseFixesExactlySafe(Sanitise(s));
  }

  /** Two different markets that are already safe are written to different files. */
  lemma SafeMarketsGetTheirOwnFiles(a: string, b: string)
    requires IsSafe(a) && IsSafe(b) && a != b
    ensures OutputFile(a) != OutputFile(b)
  {
    SanitiseFixesExactlySafe(a);
    SanitiseFixesExactlySafe(b);
    if |a| == |b| {
      var i :| 0 <= i < |a| && a[i] != b[i];
      assert OutputFile(a)[8 + i] == a[i];
      assert OutputFile(b)[8 + i] == b[i];
    }
  }

  /** Two different markets can map to one output file: "EU / FR" and "EU___FR". */
  lemma DistinctMarketsCanShareAFile()
    ensures OutputFile("EU / FR") == OutputFile("EU___FR")
  {
    var a := "EU / FR";
    var b := "EU___FR";
    var r := Sanitise(a);
    assert r[0] == 'E' && r[1] == 'U' && r[5] == 'F' && r[6] == 'R';
    assert !IsSafeChar(a[2]) && !IsSafeChar(a[3]) && !IsSafeChar(a[4]);
    assert r == b;
    SanitiseFixesExactlySafe(b);
  }
}
