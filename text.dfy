/** The .NET string operations the build tasks rely on (Trim, Split, Replace,
    StartsWith, EndsWith, Contains, ToLower, Path.GetExtension,
    Path.GetFileName), with ordinal, case-sensitive semantics and ASCII
    white space. */
module Text {

  /** The ASCII characters String.Trim removes. */
  predicate IsWhiteSpace(c: char) {
    c == ' ' || c == '\t' || c == '\n' || c == '\r' || c == '\U{000B}' || c == '\U{000C}'
  }

  predicate AllWhiteSpace(s: string) {
    forall k :: 0 <= k < |s| ==> IsWhiteSpace(s[k])
  }

  predicate NoWhiteSpace(s: string) {
    forall k :: 0 <= k < |s| ==> !IsWhiteSpace(s[k])
  }

  /** String.StartsWith(string), modelled ordinally; .NET compares with
      the current culture. */
  predicate StartsWith(s: string, prefix: string) {
    |prefix| <= |s| && s[..|prefix|] == prefix
  }

  /** String.EndsWith(string), modelled ordinally; .NET compares with
      the current culture. */
  predicate EndsWith(s: string, suffix: string) {
    |suffix| <= |s| && s[|s| - |suffix|..] == suffix
  }

  /** String.Contains(string), ordinal: `part` occurs somewhere in `s`. */
  predicate Contains(s: string, part: string)
    decreases |s|
  {
    StartsWith(s, part) || (s != [] && Contains(s[1..], part))
  }

  /** An occurrence stays an occurrence when text is appended. */
  lemma {:induction false} ContainsAppend(s: string, t: string, part: string)
    requires Contains(s, part)
    ensures Contains(s + t, part)
    decreases |s|
  {
    if StartsWith(s, part) {
      assert (s + t)[..|part|] == s[..|part|];
    } else {
      assert (s + t)[1..] == s[1..] + t;
      ContainsAppend(s[1..], t, part);
    }
  }

  // ---------------------------------------------------------------- Trim

  /** The end of the white space that starts at index `i`. */
  function LeadingBlanks(s: string, i: nat): (n: nat)
    requires i <= |s|
    ensures i <= n <= |s|
    ensures n < |s| ==> !IsWhiteSpace(s[n])
    decreases |s| - i
  {
    if i < |s| && IsWhiteSpace(s[i]) then LeadingBlanks(s, i + 1) else i
  }

  /** Everything LeadingBlanks steps over is white space. */
  lemma {:induction false} LeadingBlanksAreBlank(s: string, i: nat)
    requires i <= |s|
    ensures forall k :: i <= k < LeadingBlanks(s, i) ==> IsWhiteSpace(s[k])
    decreases |s| - i
  {
    if i < |s| && IsWhiteSpace(s[i]) {
      LeadingBlanksAreBlank(s, i + 1);
    }
  }

  /** The start of the white space that ends at index `j`, looking no
      further back than `lo`. */
  function TrailingBlanks(s: string, lo: nat, j: nat): (n: nat)
    requires lo <= j <= |s|
    ensures lo <= n <= j
    ensures n > lo ==> !IsWhiteSpace(s[n - 1])
    decreases j
  {
    if j > lo && IsWhiteSpace(s[j - 1]) then TrailingBlanks(s, lo, j - 1) else j
  }

  /** Everything TrailingBlanks steps over is white space. */
  lemma {:induction false} TrailingBlanksAreBlank(s: string, lo: nat, j: nat)
    requires lo <= j <= |s|
    ensures forall k :: TrailingBlanks(s, lo, j) <= k < j ==> IsWhiteSpace(s[k])
    decreases j
  {
    if j > lo && IsWhiteSpace(s[j - 1]) {
      TrailingBlanksAreBlank(s, lo, j - 1);
    }
  }

  /** String.Trim(): the slice of `s` between its leading and its trailing
      white space. */
  function Trim(s: string): (r: string)
    ensures |r| <= |s|
    ensures r != [] ==> !IsWhiteSpace(r[0]) && !IsWhiteSpace(r[|r| - 1])
  {
    var a := LeadingBlanks(s, 0);
    s[a..TrailingBlanks(s, a, |s|)]
  }

  /** Trim undoes any white-space padding of a string with no white space at
      its ends: the trimmed text is exactly what lies between the padding. */
  lemma {:induction false} TrimOfPadded(lead: string, x: string, trail: string)
    requires AllWhiteSpace(lead) && AllWhiteSpace(trail)
    requires x != [] ==> !IsWhiteSpace(x[0]) && !IsWhiteSpace(x[|x| - 1])
    ensures Trim(lead + x + trail) == x
  {
    var s := lead + x + trail;
    assert forall k :: 0 <= k < |lead| ==> s[k] == lead[k];
    assert forall k :: |lead| + |x| <= k < |s| ==> s[k] == trail[k - |lead| - |x|];
    var a := LeadingBlanks(s, 0);
    LeadingBlanksAreBlank(s, 0);
    TrailingBlanksAreBlank(s, a, |s|);
    if x == [] {
      assert a == |s|;
    } else {
      assert s[|lead|] == x[0];
      assert a == |lead|;
      assert s[|lead| + |x| - 1] == x[|x| - 1];
      assert TrailingBlanks(s, a, |s|) == |lead| + |x|;
      assert s[|lead|..|lead| + |x|] == x;
    }
  }

  /** After leading white space, a word survives trimming whole, followed
      by a prefix of what comes after it. */
  lemma {:induction false} TrimAfterLead(lead: string, name: string, tail: string)
    requires AllWhiteSpace(lead)
    requires name != [] && NoWhiteSpace(name)
    ensures |name| <= |Trim(lead + name + tail)|
    ensures Trim(lead + name + tail) == (name + tail)[..|Trim(lead + name + tail)|]
  {
    var s := lead + name + tail;
    assert forall k :: 0 <= k < |lead| ==> s[k] == lead[k];
    assert s[|lead|] == name[0];
    var a := LeadingBlanks(s, 0);
    LeadingBlanksAreBlank(s, 0);
    assert a == |lead|;
    assert s[|lead| + |name| - 1] == name[|name| - 1];
    var b := TrailingBlanks(s, a, |s|);
    TrailingBlanksAreBlank(s, a, |s|);
    assert b >= |lead| + |name|;
    assert s[a..b] == (name + tail)[..b - a];
  }

  /** Trimming a line that ends in a word and white space leaves some
      suffix of what precedes the word, then the word. */
  lemma {:induction false} TrimBeforeTrail(head: string, name: string, trail: string) returns (front: string)
    requires AllWhiteSpace(trail)
    requires name != [] && NoWhiteSpace(name)
    ensures Trim(head + name + trail) == front + name
    ensures front == [] || (head != [] && front[|front| - 1] == head[|head| - 1])
  {
    var s := head + name + trail;
    assert forall k :: |head| + |name| <= k < |s| ==> s[k] == trail[k - |head| - |name|];
    assert s[|head|] == name[0];
    var a := LeadingBlanks(s, 0);
    LeadingBlanksAreBlank(s, 0);
    TrailingBlanksAreBlank(s, a, |s|);
    assert a <= |head|;
    assert s[|head| + |name| - 1] == name[|name| - 1];
    assert TrailingBlanks(s, a, |s|) == |head| + |name|;
    front := head[a..];
    assert s[a..|head| + |name|] == front + name;
  }

  // --------------------------------------------------------------- Split

  /** String.Split(char) with no options: the pieces between separators,
      empty pieces included; there is always at least one piece. */
  function Split(s: string, sep: char): (pieces: seq<string>)
    ensures |pieces| >= 1
    ensures forall k :: 0 <= k < |pieces| ==> sep !in pieces[k]
  {
    if s == [] then [""]
    else
      var rest := Split(s[1..], sep);
      if s[0] == sep then [""] + rest
      else [[s[0]] + rest[0]] + rest[1..]
  }

  /** String.Join(sep, pieces). */
  function Join(pieces: seq<string>, sep: string): string
  {
    if |pieces| == 0 then ""
    else if |pieces| == 1 then pieces[0]
    else pieces[0] + sep + Join(pieces[1..], sep)
  }

  /** `line.Trim().Split(' ')[0]`. */
  function FirstToken(line: string): string {
    Split(Trim(line), ' ')[0]
  }

  /** `line.Trim().Split(' ')[^1]`. */
  function LastToken(line: string): string {
    var pieces := Split(Trim(line), ' ');
    pieces[|pieces| - 1]
  }

  lemma {:induction false} SplitWithoutSeparator(s: string, sep: char)
    requires sep !in s
    ensures Split(s, sep) == [s]
  {
    if s != [] {
      SplitWithoutSeparator(s[1..], sep);
      assert [s[0]] + s[1..] == s;
    }
  }

  /** A separator cuts the split in two: the pieces of what lies before it
      followed by the pieces of what lies after it. */
  lemma {:induction false} SplitAppend(x: string, sep: char, y: string)
    ensures Split(x + [sep] + y, sep) == Split(x, sep) + Split(y, sep)
  {
    if x == [] {
      assert x + [sep] + y == [sep] + y;
      assert ([sep] + y)[1..] == y;
    } else {
      assert (x + [sep] + y)[1..] == x[1..] + [sep] + y;
      SplitAppend(x[1..], sep, y);
    }
  }

  /** Joining the pieces with the separator gives the string back. */
  lemma {:induction false} JoinSplit(s: string, sep: char)
    ensures Join(Split(s, sep), [sep]) == s
  {
    if s != [] {
      var rest := Split(s[1..], sep);
      JoinSplit(s[1..], sep);
      if s[0] == sep {
        assert Join([""] + rest, [sep]) == "" + [sep] + Join(rest, [sep]);
      } else if |rest| == 1 {
        assert Join([[s[0]] + rest[0]], [sep]) == [s[0]] + rest[0];
      } else {
        var pieces := [[s[0]] + rest[0]] + rest[1..];
        assert pieces[1..] == rest[1..];
        assert Join(rest, [sep]) == rest[0] + [sep] + Join(rest[1..], [sep]);
      }
    }
  }

  /** Splitting a join of separator-free pieces gives the pieces back. */
  lemma {:induction false} SplitJoin(pieces: seq<string>, sep: char)
    requires |pieces| >= 1
    requires forall k :: 0 <= k < |pieces| ==> sep !in pieces[k]
    ensures Split(Join(pieces, [sep]), sep) == pieces
  {
    if |pieces| == 1 {
      SplitWithoutSeparator(pieces[0], sep);
    } else {
      SplitJoin(pieces[1..], sep);
      SplitWithoutSeparator(pieces[0], sep);
      SplitAppend(pieces[0], sep, Join(pieces[1..], [sep]));
      assert [pieces[0]] + pieces[1..] == pieces;
    }
  }

  lemma {:induction false} NoSpaceIn(name: string)
    requires NoWhiteSpace(name)
    ensures ' ' !in name
  {
  }

  /** The first piece of a split is everything before the first separator. */
  lemma {:induction false} FirstPiece(name: string, rest: string, sep: char)
    requires sep !in name
    requires rest == [] || rest[0] == sep
    ensures Split(name + rest, sep)[0] == name
  {
    SplitWithoutSeparator(name, sep);
    if rest != [] {
      assert name + rest == name + [sep] + rest[1..];
      SplitAppend(name, sep, rest[1..]);
    } else {
      assert name + rest == name;
    }
  }

  /** The last piece of a split is everything after the last separator. */
  lemma {:induction false} LastPiece(front: string, name: string, sep: char)
    requires sep !in name
    requires front == [] || front[|front| - 1] == sep
    ensures var p := Split(front + name, sep); p[|p| - 1] == name
  {
    SplitWithoutSeparator(name, sep);
    if front != [] {
      assert front + name == front[..|front| - 1] + [sep] + name;
      SplitAppend(front[..|front| - 1], sep, name);
    } else {
      assert front + name == name;
    }
  }

  /** The first token of a line is its first run of non-blank characters,
      whatever white space precedes it and whatever follows it after a space. */
  lemma {:induction false} FirstTokenOfLine(lead: string, name: string, tail: string)
    requires AllWhiteSpace(lead)
    requires name != [] && NoWhiteSpace(name)
    requires tail == [] || tail[0] == ' '
    ensures FirstToken(lead + name + tail) == name
  {
    TrimAfterLead(lead, name, tail);
    var t := Trim(lead + name + tail);
    var rest := tail[..|t| - |name|];
    assert t == name + rest;
    NoSpaceIn(name);
    FirstPiece(name, rest, ' ');
  }

  /** The last token of a line is its last run of non-blank characters,
      whatever precedes it before a space and whatever white space follows. */
  lemma {:induction false} LastTokenOfLine(head: string, name: string, trail: string)
    requires AllWhiteSpace(trail)
    requires name != [] && NoWhiteSpace(name)
    requires head == [] || head[|head| - 1] == ' '
    ensures LastToken(head + name + trail) == name
  {
    var front := TrimBeforeTrail(head, name, trail);
    NoSpaceIn(name);
    LastPiece(front, name, ' ');
  }

  // ------------------------------------------------------------- Replace

  /** String.Replace(string, string), ordinal: every occurrence of `pattern`,
      found left to right without overlap, becomes `replacement`. .NET refuses an
      empty pattern; every call site passes a non-empty literal. */
  function Replace(s: string, pattern: string, replacement: string): string
    requires pattern != []
    decreases |s|
  {
    if s == [] then []
    else if StartsWith(s, pattern) then replacement + Replace(s[|pattern|..], pattern, replacement)
    else [s[0]] + Replace(s[1..], pattern, replacement)
  }

  /** Replace leaves a string without the pattern unchanged. */
  lemma {:induction false} ReplaceAbsent(s: string, pattern: string, replacement: string)
    requires pattern != []
    requires !Contains(s, pattern)
    ensures Replace(s, pattern, replacement) == s
    decreases |s|
  {
    if s != [] {
      ReplaceAbsent(s[1..], pattern, replacement);
      assert [s[0]] + s[1..] == s;
    }
  }

  /** Replacing a pattern by itself changes nothing. */
  lemma {:induction false} ReplaceBySelf(s: string, pattern: string)
    requires pattern != []
    ensures Replace(s, pattern, pattern) == s
    decreases |s|
  {
    if s != [] {
      if StartsWith(s, pattern) {
        ReplaceBySelf(s[|pattern|..], pattern);
        assert s[..|pattern|] + s[|pattern|..] == s;
      } else {
        ReplaceBySelf(s[1..], pattern);
        assert [s[0]] + s[1..] == s;
      }
    }
  }

  /** Text that does not hold the pattern's first character is copied
      unchanged ahead of the rest. */
  lemma {:induction false} ReplaceAfterPlain(t: string, r: string, pattern: string, replacement: string)
    requires pattern != [] && pattern[0] !in t
    ensures Replace(t + r, pattern, replacement) == t + Replace(r, pattern, replacement)
    decreases |t|
  {
    if t != [] {
      assert (t + r)[0] == t[0] && (t + r)[1..] == t[1..] + r;
      assert !StartsWith(t + r, pattern);
      ReplaceAfterPlain(t[1..], r, pattern, replacement);
      assert [t[0]] + t[1..] == t;
    } else {
      assert t + r == r;
    }
  }

  /** An occurrence at the start is replaced, and the scan resumes after it. */
  lemma ReplaceAtPattern(pattern: string, r: string, replacement: string)
    requires pattern != []
    ensures Replace(pattern + r, pattern, replacement) == replacement + Replace(r, pattern, replacement)
  {
    assert (pattern + r)[..|pattern|] == pattern;
    assert (pattern + r)[|pattern|..] == r;
  }

  // --------------------------------------------------------------- Other

  function ToLowerChar(c: char): char {
    if 'A' <= c <= 'Z' then (c as int + 32) as char else c
  }

  /** String.ToLower() on ASCII letters. */
  function ToLower(s: string): (r: string)
    ensures |r| == |s|
  {
    seq(|s|, k requires 0 <= k < |s| => ToLowerChar(s[k]))
  }

  /** ToLower only touches letters: a character that is not an upper-case
      letter keeps its place, so lowering introduces no new punctuation. */
  lemma {:induction false} ToLowerKeepsOthers(s: string, c: char)
    requires !('A' <= c <= 'Z') && !('a' <= c <= 'z')
    ensures c in ToLower(s) <==> c in s
  {
    if c in s {
      var k :| 0 <= k < |s| && s[k] == c;
      assert ToLower(s)[k] == c;
    }
    if c in ToLower(s) {
      var k :| 0 <= k < |s| && ToLower(s)[k] == c;
      assert s[k] == c;
    }
  }

  /** Path.GetExtension on Unix: from the last '.' of the last path segment
      to the end, or "" when that segment has no '.' or ends with it. */
  function GetExtension(path: string): (ext: string)
    ensures ext == [] || (ext[0] == '.' && |ext| >= 2 && EndsWith(path, ext) && '/' !in ext && '.' !in ext[1..])
  {
    ExtensionBefore(path, |path|)
  }

  /** The scan of GetExtension over the characters before index `i`; those
      from `i` on hold neither '.' nor '/'. */
  function ExtensionBefore(path: string, i: nat): (ext: string)
    requires i <= |path|
    requires forall k :: i <= k < |path| ==> path[k] != '.' && path[k] != '/'
    ensures ext == [] || (|ext| <= |path| && |path| - |ext| < i && ext[0] == '.' && |ext| >= 2 && ext == path[|path| - |ext|..])
    ensures ext != [] ==> '.' !in ext[1..] && '/' !in ext
  {
    if i == 0 then ""
    else if path[i - 1] == '.' then (if i == |path| then "" else path[i - 1..])
    else if path[i - 1] == '/' then ""
    else ExtensionBefore(path, i - 1)
  }

  /** A path that ends in `ext` (a '.' followed by at least one character
      other than '.' and '/') has the extension `ext`. */
  lemma {:induction false} ExtensionOfSuffix(front: string, ext: string)
    requires |ext| >= 2 && ext[0] == '.' && '.' !in ext[1..] && '/' !in ext
    ensures GetExtension(front + ext) == ext
  {
    var path := front + ext;
    var i := |path|;
    while i > |front| + 1
      invariant |front| + 1 <= i <= |path|
      invariant forall k :: i <= k < |path| ==> path[k] != '.' && path[k] != '/'
      invariant ExtensionBefore(path, i) == ExtensionBefore(path, |path|)
      decreases i
    {
      assert path[i - 1] == ext[i - 1 - |front|];
      assert ext[i - 1 - |front|] in ext[1..];
      i := i - 1;
    }
    assert path[|front|] == '.';
    assert path[|front|..] == ext;
  }

  /** For such an `ext`, a path has that extension exactly when it ends
      with it. */
  lemma {:induction false} ExtensionIff(path: string, ext: string)
    requires |ext| >= 2 && ext[0] == '.' && '.' !in ext[1..] && '/' !in ext
    ensures GetExtension(path) == ext <==> EndsWith(path, ext)
  {
    if EndsWith(path, ext) {
      ExtensionOfSuffix(path[..|path| - |ext|], ext);
      assert path[..|path| - |ext|] + ext == path;
    }
  }

  /** Path.GetFileName on Unix: the text after the last '/'. */
  function GetFileName(path: string): string {
    var pieces := Split(path, '/');
    pieces[|pieces| - 1]
  }

  /** The file name of a path built as dir + "/" + name is that name. */
  lemma {:induction false} FileNameOfCombined(dir: string, name: string)
    requires '/' !in name
    ensures GetFileName(dir + "/" + name) == name
  {
    assert dir + "/" + name == dir + ['/'] + name;
    SplitAppend(dir, '/', name);
    SplitWithoutSeparator(name, '/');
  }
}
