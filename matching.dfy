/** The allow-list scans the Linux and macOS checkers run over a reference:
    a loop over a table of prefixes or suffixes that stops at the first hit. */
module Matching {
  import opened Text

  predicate HasPrefixIn(s: string, prefixes: seq<string>) {
    exists k :: 0 <= k < |prefixes| && StartsWith(s, prefixes[k])
  }

  predicate HasSuffixIn(s: string, suffixes: seq<string>) {
    exists k :: 0 <= k < |suffixes| && EndsWith(s, suffixes[k])
  }

  /** `foreach (var validPrefix in LibPrefix) if (libPath.StartsWith(validPrefix)) { … break; }` */
  method MatchesAnyPrefix(s: string, prefixes: seq<string>) returns (found: bool)
    ensures found <==> HasPrefixIn(s, prefixes)
  {
    found := false;
    var k := 0;
    while k < |prefixes|
      invariant 0 <= k <= |prefixes|
      invariant forall j :: 0 <= j < k ==> !StartsWith(s, prefixes[j])
    {
      if StartsWith(s, prefixes[k]) {
        found := true;
        break;
      }
      k := k + 1;
    }
  }

  /** `foreach (var validSufix in libSufix) if (libPath.EndsWith(validSufix)) { … break; }` */
  method MatchesAnySuffix(s: string, suffixes: seq<string>) returns (found: bool)
    ensures found <==> HasSuffixIn(s, suffixes)
  {
    found := false;
    var k := 0;
    while k < |suffixes|
      invariant 0 <= k <= |suffixes|
      invariant forall j :: 0 <= j < k ==> !EndsWith(s, suffixes[j])
    {
      if EndsWith(s, suffixes[k]) {
        found := true;
        break;
      }
      k := k + 1;
    }
  }

  /** A suffix test, not a name comparison: any path that ends in a listed
      name matches, so a full path to a shipped file's name passes. */
  lemma {:induction false} PathEndingInNameMatches(dir: string, name: string, suffixes: seq<string>)
    requires name in suffixes
    ensures HasSuffixIn(dir + name, suffixes)
  {
    var k :| 0 <= k < |suffixes| && suffixes[k] == name;
    assert (dir + name)[|dir + name| - |name|..] == name;
  }
}
