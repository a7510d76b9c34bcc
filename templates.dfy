/** The project files both packaging tasks generate from an embedded
    template: the licence file name, the placeholders replaced one after the
    other, and the `<Content>` items that place each rid's binaries in the
    NuGet package. */
module Templates {
  import opened Text
  import opened Rids
  import opened Wrappers

  /** The tool's settings, read from the build's arguments. */
  datatype Tool = Tool(toolName: string, commandName: string, executableName: string,
                       description: string, licensePath: string)

  // ------------------------------------------------------- Licence names

  /** Package chooses the licence file name by the path's extension. */
  function LicenseNameByExtension(licensePath: string): (name: string)
    ensures name == "LICENSE.txt" || name == "LICENSE.md" || name == "LICENSE"
  {
    match GetExtension(licensePath)
    case ".txt" => "LICENSE.txt"
    case ".md" => "LICENSE.md"
    case _ => "LICENSE"
  }

  /** PublishPackage chooses it by the path's ending. */
  function LicenceNameBySuffix(licensePath: string): (name: string)
    ensures name == "LICENSE.txt" || name == "LICENSE.md" || name == "LICENSE"
  {
    if EndsWith(licensePath, ".txt") then "LICENSE.txt"
    else if EndsWith(licensePath, ".md") then "LICENSE.md"
    else "LICENSE"
  }

  /** Both tasks name the licence file alike for every path: a path ends in
      ".txt" exactly when its extension is ".txt", and likewise for ".md". */
  lemma {:induction false} LicenceNamesAgree(licensePath: string)
    ensures LicenseNameByExtension(licensePath) == LicenceNameBySuffix(licensePath)
    ensures LicenceNameBySuffix(licensePath) == "LICENSE.txt" <==> EndsWith(licensePath, ".txt")
    ensures LicenceNameBySuffix(licensePath) == "LICENSE.md" <==> EndsWith(licensePath, ".md") && !EndsWith(licensePath, ".txt")
  {
    ExtensionIff(licensePath, ".txt");
    ExtensionIff(licensePath, ".md");
  }

  // ----------------------------------------------------------- Templates

  /** A template as a run of pieces: literal text, or a placeholder written
      `{name}` in the template's text. */
  datatype Piece = Literal(text: string) | Hole(name: string)

  function Placeholder(name: string): (p: string)
    ensures |p| == |name| + 2 && p[0] == '{' && p[|p| - 1] == '}'
  {
    "{" + name + "}"
  }

  function Render(pieces: seq<Piece>): string {
    if pieces == [] then ""
    else
      (match pieces[0]
       case Literal(text) => text
       case Hole(name) => Placeholder(name)) + Render(pieces[1..])
  }

  predicate BraceFree(s: string) {
    '{' !in s && '}' !in s
  }

  /** Literal text holds no '{' and placeholder names hold no brace, so the
      rendered text holds exactly the placeholders of its holes. */
  predicate WellFormed(pieces: seq<Piece>) {
    forall k :: 0 <= k < |pieces| ==>
      match pieces[k]
      case Literal(text) => '{' !in text
      case Hole(name) => BraceFree(name)
  }

  /** The value bound to `name`: the first binding for it, if any. */
  function Lookup(name: string, names: seq<string>, values: seq<string>): (r: Option<string>)
    requires |names| == |values|
    ensures r.Some? <==> name in names
  {
    if names == [] then None
    else if names[0] == name then Some(values[0])
    else Lookup(name, names[1..], values[1..])
  }

  /** The text a template stands for once each bound placeholder is
      replaced by its value; unbound placeholders stay as written. */
  function Instantiate(pieces: seq<Piece>, names: seq<string>, values: seq<string>): string
    requires |names| == |values|
  {
    if pieces == [] then ""
    else
      (match pieces[0]
       case Literal(text) => text
       case Hole(name) =>
         match Lookup(name, names, values)
         case Some(v) => v
         case None => Placeholder(name)) + Instantiate(pieces[1..], names, values)
  }

  /** Replace each placeholder in turn, first to last. */
  function ReplaceEach(s: string, names: seq<string>, values: seq<string>): string
    requires |names| == |values|
    decreases |names|
  {
    if names == [] then s
    else ReplaceEach(Replace(s, Placeholder(names[0]), values[0]), names[1..], values[1..])
  }

  /** A placeholder is not the start of a text that opens with another
      placeholder: the two differ within the shorter one's length. */
  lemma {:induction false} PlaceholderNotPrefix(m: string, n: string, rest: string)
    requires BraceFree(m) && BraceFree(n) && m != n
    ensures !StartsWith(Placeholder(m) + rest, Placeholder(n))
  {
    var q, p := Placeholder(m), Placeholder(n);
    var s := q + rest;
    if |p| <= |s| {
      if |p| < |q| {
        assert s[|p| - 1] == m[|p| - 2] != p[|p| - 1];
      } else if |p| == |q| {
        var i :| 0 <= i < |m| && m[i] != n[i];
        assert s[i + 1] == m[i] != n[i] == p[i + 1];
      } else {
        assert s[|q| - 1] == '}' != n[|q| - 2] == p[|q| - 1];
      }
    }
  }

  /** A placeholder other than the pattern is copied unchanged. */
  lemma {:induction false} OtherPlaceholderSkipped(m: string, n: string, rest: string, value: string)
    requires BraceFree(m) && BraceFree(n) && m != n
    ensures Replace(Placeholder(m) + rest, Placeholder(n), value) == Placeholder(m) + Replace(rest, Placeholder(n), value)
  {
    var q, p := Placeholder(m), Placeholder(n);
    var s := q + rest;
    PlaceholderNotPrefix(m, n, rest);
    assert s[1..] == q[1..] + rest;
    assert '{' !in q[1..] by {
      assert forall k :: 1 <= k < |q| - 1 ==> q[k] == m[k - 1];
    }
    ReplaceAfterPlain(q[1..], rest, p, value);
    assert [q[0]] + q[1..] == q;
  }

  /** Replacing one placeholder whose value holds no '{' is substituting it
      in the template's pieces. */
  function Subst(pieces: seq<Piece>, name: string, value: string): (r: seq<Piece>)
    ensures |r| == |pieces|
  {
    seq(|pieces|, k requires 0 <= k < |pieces| =>
      if pieces[k] == Hole(name) then Literal(value) else pieces[k])
  }

  lemma {:induction false} ReplaceOne(pieces: seq<Piece>, name: string, value: string)
    requires WellFormed(pieces) && BraceFree(name)
    ensures Replace(Render(pieces), Placeholder(name), value) == Render(Subst(pieces, name, value))
    decreases |pieces|
  {
    var p := Placeholder(name);
    if pieces != [] {
      var rest := pieces[1..];
      assert WellFormed(rest) by {
        assert forall k :: 0 <= k < |rest| ==> rest[k] == pieces[k + 1];
      }
      ReplaceOne(rest, name, value);
      var sub := Subst(pieces, name, value);
      assert sub[1..] == Subst(rest, name, value);
      match pieces[0]
      case Literal(text) =>
        ReplaceAfterPlain(text, Render(rest), p, value);
      case Hole(m) =>
        if m == name {
          ReplaceAtPattern(p, Render(rest), value);
        } else {
          OtherPlaceholderSkipped(m, name, Render(rest), value);
        }
    }
  }

  /** Replacing the placeholders one after the other with values free of
      braces instantiates the template: each bound placeholder becomes its
      value, and nothing else changes. */
  lemma {:induction false} ReplaceEachInstantiates(pieces: seq<Piece>, names: seq<string>, values: seq<string>)
    requires |names| == |values| && WellFormed(pieces)
    requires forall k :: 0 <= k < |names| ==> BraceFree(names[k]) && BraceFree(values[k])
    ensures ReplaceEach(Render(pieces), names, values) == Instantiate(pieces, names, values)
    decreases |names|
  {
    if names == [] {
      NothingBound(pieces, names, values);
    } else {
      ReplaceOne(pieces, names[0], values[0]);
      var sub := Subst(pieces, names[0], values[0]);
      assert WellFormed(sub);
      ReplaceEachInstantiates(sub, names[1..], values[1..]);
      SubstThenRest(pieces, names, values);
    }
  }

  lemma {:induction false} NothingBound(pieces: seq<Piece>, names: seq<string>, values: seq<string>)
    requires names == [] && values == []
    ensures Render(pieces) == Instantiate(pieces, names, values)
    decreases |pieces|
  {
    if pieces != [] {
      NothingBound(pieces[1..], names, values);
    }
  }

  lemma {:induction false} SubstThenRest(pieces: seq<Piece>, names: seq<string>, values: seq<string>)
    requires |names| == |values| && names != []
    ensures Instantiate(Subst(pieces, names[0], values[0]), names[1..], values[1..]) == Instantiate(pieces, names, values)
    decreases |pieces|
  {
    if pieces != [] {
      var sub := Subst(pieces, names[0], values[0]);
      assert sub[1..] == Subst(pieces[1..], names[0], values[0]);
      SubstThenRest(pieces[1..], names, values);
    }
  }

  /** With every placeholder bound and every value free of '{', no '{' is
      left in the result. */
  lemma {:induction false} NoPlaceholderSurvives(pieces: seq<Piece>, names: seq<string>, values: seq<string>)
    requires |names| == |values| && WellFormed(pieces)
    requires forall k :: 0 <= k < |names| ==> BraceFree(values[k])
    requires forall k :: 0 <= k < |pieces| ==> pieces[k].Hole? ==> pieces[k].name in names
    ensures '{' !in Instantiate(pieces, names, values)
    decreases |pieces|
  {
    if pieces != [] {
      var rest := pieces[1..];
      assert forall k :: 0 <= k < |rest| ==> rest[k] == pieces[k + 1];
      NoPlaceholderSurvives(rest, names, values);
      if pieces[0].Hole? {
        LookupFindsValue(pieces[0].name, names, values);
      }
    }
  }

  lemma {:induction false} LookupFindsValue(name: string, names: seq<string>, values: seq<string>)
    requires |names| == |values| && name in names
    ensures exists k :: 0 <= k < |values| && Lookup(name, names, values) == Some(values[k])
    decreases |names|
  {
    if names[0] != name {
      LookupFindsValue(name, names[1..], values[1..]);
      var k :| 0 <= k < |values[1..]| && Lookup(name, names[1..], values[1..]) == Some(values[1..][k]);
      assert values[1..][k] == values[k + 1];
    } else {
      assert Lookup(name, names, values) == Some(values[0]);
    }
  }

  // ------------------------------------------------------------- Package

  /** The `<None>` item that puts the binaries folder in the tool's output. */
  const ContentInclude := "<None Include=\"" + "binaries\\**\\*\"" + " CopyToOutputDirectory=" + "\"PreserveNewest\" />"

  /** Package's placeholders, in the order they are replaced. */
  const PackageNames := ["X", "x", "ExecutableName", "Description", "LicensePath", "LicenseName", "ContentInclude"]

  function PackageValues(tool: Tool): (values: seq<string>)
    ensures |values| == |PackageNames|
  {
    [tool.toolName, ToLower(tool.toolName), tool.executableName, tool.description,
     tool.licensePath, LicenseNameByExtension(tool.licensePath), ContentInclude]
  }

  /** WriteEmbeddedResource's Replace chain, first to last. */
  function PackageProject(template: string, tool: Tool): string {
    var s1 := Replace(template, Placeholder("X"), tool.toolName);
    var s2 := Replace(s1, Placeholder("x"), ToLower(tool.toolName));
    var s3 := Replace(s2, Placeholder("ExecutableName"), tool.executableName);
    var s4 := Replace(s3, Placeholder("Description"), tool.description);
    var s5 := Replace(s4, Placeholder("LicensePath"), tool.licensePath);
    var s6 := Replace(s5, Placeholder("LicenseName"), LicenseNameByExtension(tool.licensePath));
    Replace(s6, Placeholder("ContentInclude"), ContentInclude)
  }

  /** The tool's settings hold no braces. */
  predicate PlainTool(tool: Tool) {
    BraceFree(tool.toolName) && BraceFree(tool.commandName) && BraceFree(tool.executableName) &&
    BraceFree(tool.description) && BraceFree(tool.licensePath)
  }

  lemma ContentIncludeBraceFree()
    ensures BraceFree(ContentInclude)
  {
    assert BraceFree("<None Include=\"");
    assert BraceFree("binaries\\**\\*\"");
    assert BraceFree(" CopyToOutputDirectory=");
    assert BraceFree("\"PreserveNewest\" />");
  }

  lemma LicenceNamesBraceFree()
    ensures BraceFree("LICENSE.txt") && BraceFree("LICENSE.md") && BraceFree("LICENSE")
  {
  }

  lemma PackageNamesBraceFree()
    ensures forall k :: 0 <= k < |PackageNames| ==> BraceFree(PackageNames[k])
  {
    var n := PackageNames;
    assert BraceFree(n[0]) && BraceFree(n[1]);
    assert BraceFree(n[2]) && BraceFree(n[3]);
    assert BraceFree(n[4]) && BraceFree(n[5]);
    assert BraceFree(n[6]);
  }

  lemma PackageValuesBraceFree(tool: Tool)
    requires PlainTool(tool)
    ensures forall k :: 0 <= k < |PackageNames| ==> BraceFree(PackageNames[k]) && BraceFree(PackageValues(tool)[k])
  {
    PackageNamesBraceFree();
    ToLowerKeepsOthers(tool.toolName, '{');
    ToLowerKeepsOthers(tool.toolName, '}');
    ContentIncludeBraceFree();
    LicenceNamesBraceFree();
    var v := PackageValues(tool);
    assert v[1] == ToLower(tool.toolName);
    assert v[5] == LicenseNameByExtension(tool.licensePath);
    assert v[6] == ContentInclude;
  }

  /** The chain is ReplaceEach over Package's placeholders. */
  lemma PackageProjectIsReplaceEach(template: string, tool: Tool)
    ensures PackageProject(template, tool) == ReplaceEach(template, PackageNames, PackageValues(tool))
  {
    var n, v := PackageNames, PackageValues(tool);
    var s1 := Replace(template, Placeholder("X"), tool.toolName);
    var s2 := Replace(s1, Placeholder("x"), ToLower(tool.toolName));
    var s3 := Replace(s2, Placeholder("ExecutableName"), tool.executableName);
    var s4 := Replace(s3, Placeholder("Description"), tool.description);
    var s5 := Replace(s4, Placeholder("LicensePath"), tool.licensePath);
    var s6 := Replace(s5, Placeholder("LicenseName"), LicenseNameByExtension(tool.licensePath));
    var s7 := Replace(s6, Placeholder("ContentInclude"), ContentInclude);
    assert ReplaceEach(template, n, v) == ReplaceEach(s1, n[1..], v[1..]);
    assert ReplaceEach(s1, n[1..], v[1..]) == ReplaceEach(s2, n[2..], v[2..]);
    assert ReplaceEach(s2, n[2..], v[2..]) == ReplaceEach(s3, n[3..], v[3..]);
    assert ReplaceEach(s3, n[3..], v[3..]) == ReplaceEach(s4, n[4..], v[4..]);
    assert ReplaceEach(s4, n[4..], v[4..]) == ReplaceEach(s5, n[5..], v[5..]);
    assert ReplaceEach(s5, n[5..], v[5..]) == ReplaceEach(s6, n[6..], v[6..]);
    assert ReplaceEach(s6, n[6..], v[6..]) == ReplaceEach(s7, n[7..], v[7..]);
  }

  /** For settings without braces, Package's project text is its template
      with "{X}" replaced by the tool name, "{x}" by its lower-case form, and
      every other placeholder by its value; a template using only these
      placeholders keeps no '{'. */
  lemma {:induction false} PackageProjectInstantiates(pieces: seq<Piece>, tool: Tool)
    requires WellFormed(pieces) && PlainTool(tool)
    ensures PackageProject(Render(pieces), tool) == Instantiate(pieces, PackageNames, PackageValues(tool))
    ensures (forall k :: 0 <= k < |pieces| ==> pieces[k].Hole? ==> pieces[k].name in PackageNames) ==>
            '{' !in PackageProject(Render(pieces), tool)
  {
    PackageValuesBraceFree(tool);
    PackageProjectIsReplaceEach(Render(pieces), tool);
    ReplaceEachInstantiates(pieces, PackageNames, PackageValues(tool));
    if forall k :: 0 <= k < |pieces| ==> pieces[k].Hole? ==> pieces[k].name in PackageNames {
      NoPlaceholderSurvives(pieces, PackageNames, PackageValues(tool));
    }
  }

  // ------------------------------------------------------ PublishPackage

  /** The `<Content>` item that packs one file under a rid's runtime folder. */
  function ContentLine(filePath: string, rid: string): string {
    "<Content Include=\"" + filePath + "\"><PackagePath>" + RuntimeDir(rid) + "</PackagePath></Content>"
  }

  lemma ContentLineBraceFree(filePath: string, rid: string)
    requires BraceFree(filePath) && BraceFree(rid)
    ensures BraceFree(ContentLine(filePath, rid))
  {
  }

  /** The items for the files of one rid's folder, in listing order. */
  function ContentLines(files: seq<string>, rid: string): (lines: seq<string>)
    ensures |lines| == |files|
    ensures forall j :: 0 <= j < |files| ==> lines[j] == ContentLine(files[j], rid)
  {
    seq(|files|, j requires 0 <= j < |files| => ContentLine(files[j], rid))
  }

  /** toolsToInclude: for each required rid in order, an item per file that
      Directory.GetFiles lists in the rid's runtime folder. */
  function ToolsToInclude(rids: seq<string>, filesIn: string -> seq<string>): seq<string> {
    if rids == [] then []
    else ContentLines(filesIn(RuntimeDir(rids[0])), rids[0]) + ToolsToInclude(rids[1..], filesIn)
  }

  /** The items come rid by rid: those of earlier rids first. */
  lemma {:induction false} ToolsToIncludeAppend(first: seq<string>, second: seq<string>, filesIn: string -> seq<string>)
    ensures ToolsToInclude(first + second, filesIn) == ToolsToInclude(first, filesIn) + ToolsToInclude(second, filesIn)
    decreases |first|
  {
    if first == [] {
      assert first + second == second;
    } else {
      assert (first + second)[1..] == first[1..] + second;
      ToolsToIncludeAppend(first[1..], second, filesIn);
    }
  }

  /** An item is included exactly when it packs a file listed in the
      runtime folder of a required rid under that rid. */
  lemma {:induction false} ToolsToIncludeIff(rids: seq<string>, filesIn: string -> seq<string>, line: string)
    ensures line in ToolsToInclude(rids, filesIn) <==>
            exists k, j :: 0 <= k < |rids| && 0 <= j < |filesIn(RuntimeDir(rids[k]))| &&
                           line == ContentLine(filesIn(RuntimeDir(rids[k]))[j], rids[k])
    decreases |rids|
  {
    if rids != [] {
      var rest := rids[1..];
      ToolsToIncludeIff(rest, filesIn, line);
      var head := ContentLines(filesIn(RuntimeDir(rids[0])), rids[0]);
      if line in head {
        var j :| 0 <= j < |head| && head[j] == line;
        assert line == ContentLine(filesIn(RuntimeDir(rids[0]))[j], rids[0]);
      } else if line in ToolsToInclude(rest, filesIn) {
        var k, j :| 0 <= k < |rest| && 0 <= j < |filesIn(RuntimeDir(rest[k]))| &&
                    line == ContentLine(filesIn(RuntimeDir(rest[k]))[j], rest[k]);
        assert rest[k] == rids[k + 1];
      }
      if k, j :| 0 <= k < |rids| && 0 <= j < |filesIn(RuntimeDir(rids[k]))| &&
                 line == ContentLine(filesIn(RuntimeDir(rids[k]))[j], rids[k]) {
        if k == 0 {
          assert head[j] == line;
        } else {
          assert rids[k] == rest[k - 1];
        }
      }
    }
  }

  /** PublishPackage's placeholders, in the order they are replaced. */
  const PublishPackageNames := ["X", "CommandName", "LicencePath", "LicenceName", "ToolsToInclude"]

  function PublishPackageValues(tool: Tool, tools: string): (values: seq<string>)
    ensures |values| == |PublishPackageNames|
  {
    [tool.toolName, tool.commandName, tool.licensePath, LicenceNameBySuffix(tool.licensePath), tools]
  }

  /** PublishPackage's project text: `projectData` replaced step by step,
      with the items joined by the platform's line separator. */
  function PublishPackageProject(template: string, tool: Tool, universal: bool,
                                 filesIn: string -> seq<string>, newLine: string): string {
    var s1 := Replace(template, Placeholder("X"), tool.toolName);
    var s2 := Replace(s1, Placeholder("CommandName"), tool.commandName);
    var s3 := Replace(s2, Placeholder("LicencePath"), tool.licensePath);
    var s4 := Replace(s3, Placeholder("LicenceName"), LicenceNameBySuffix(tool.licensePath));
    Replace(s4, Placeholder("ToolsToInclude"), Join(ToolsToInclude(RequiredRids(universal), filesIn), newLine))
  }

  lemma RequiredRidsBraceFree(universal: bool)
    ensures forall k :: 0 <= k < |RequiredRids(universal)| ==> BraceFree(RequiredRids(universal)[k])
  {
  }

  lemma PublishPackageValuesBraceFree(tool: Tool, tools: string)
    requires PlainTool(tool) && BraceFree(tools)
    ensures forall k :: 0 <= k < |PublishPackageNames| ==> BraceFree(PublishPackageNames[k]) && BraceFree(PublishPackageValues(tool, tools)[k])
  {
    PublishPackageNamesBraceFree();
    LicenceNamesBraceFree();
    var v := PublishPackageValues(tool, tools);
    assert v[3] == LicenceNameBySuffix(tool.licensePath);
  }

  lemma PublishPackageNamesBraceFree()
    ensures forall k :: 0 <= k < |PublishPackageNames| ==> BraceFree(PublishPackageNames[k])
  {
    var n := PublishPackageNames;
    assert BraceFree(n[0]) && BraceFree(n[1]);
    assert BraceFree(n[2]) && BraceFree(n[3]);
    assert BraceFree(n[4]);
  }

  /** The chain is ReplaceEach over PublishPackage's placeholders. */
  lemma PublishPackageProjectIsReplaceEach(template: string, tool: Tool, universal: bool,
                                           filesIn: string -> seq<string>, newLine: string)
    ensures PublishPackageProject(template, tool, universal, filesIn, newLine) ==
            ReplaceEach(template, PublishPackageNames,
                        PublishPackageValues(tool, Join(ToolsToInclude(RequiredRids(universal), filesIn), newLine)))
  {
    var tools := Join(ToolsToInclude(RequiredRids(universal), filesIn), newLine);
    var n, v := PublishPackageNames, PublishPackageValues(tool, tools);
    var s1 := Replace(template, Placeholder("X"), tool.toolName);
    var s2 := Replace(s1, Placeholder("CommandName"), tool.commandName);
    var s3 := Replace(s2, Placeholder("LicencePath"), tool.licensePath);
    var s4 := Replace(s3, Placeholder("LicenceName"), LicenceNameBySuffix(tool.licensePath));
    var s5 := Replace(s4, Placeholder("ToolsToInclude"), tools);
    assert ReplaceEach(template, n, v) == ReplaceEach(s1, n[1..], v[1..]);
    assert ReplaceEach(s1, n[1..], v[1..]) == ReplaceEach(s2, n[2..], v[2..]);
    assert ReplaceEach(s2, n[2..], v[2..]) == ReplaceEach(s3, n[3..], v[3..]);
    assert ReplaceEach(s3, n[3..], v[3..]) == ReplaceEach(s4, n[4..], v[4..]);
    assert ReplaceEach(s4, n[4..], v[4..]) == ReplaceEach(s5, n[5..], v[5..]);
  }

  /** Joined text keeps out a character none of its parts holds. */
  lemma {:induction false} JoinKeepsOut(parts: seq<string>, sep: string, c: char)
    requires c !in sep && forall k :: 0 <= k < |parts| ==> c !in parts[k]
    ensures c !in Join(parts, sep)
    decreases |parts|
  {
    if |parts| > 1 {
      assert forall k :: 0 <= k < |parts[1..]| ==> parts[1..][k] == parts[k + 1];
      JoinKeepsOut(parts[1..], sep, c);
    }
  }

  /** The items hold no brace when no listed file path does. */
  lemma {:induction false} ToolsBraceFree(rids: seq<string>, filesIn: string -> seq<string>, newLine: string)
    requires BraceFree(newLine)
    requires forall k :: 0 <= k < |rids| ==> BraceFree(rids[k]) && forall j :: 0 <= j < |filesIn(RuntimeDir(rids[k]))| ==> BraceFree(filesIn(RuntimeDir(rids[k]))[j])
    ensures BraceFree(Join(ToolsToInclude(rids, filesIn), newLine))
  {
    var lines := ToolsToInclude(rids, filesIn);
    forall m | 0 <= m < |lines| ensures BraceFree(lines[m]) {
      ToolsToIncludeIff(rids, filesIn, lines[m]);
      var k, j :| 0 <= k < |rids| && 0 <= j < |filesIn(RuntimeDir(rids[k]))| &&
                  lines[m] == ContentLine(filesIn(RuntimeDir(rids[k]))[j], rids[k]);
      ContentLineBraceFree(filesIn(RuntimeDir(rids[k]))[j], rids[k]);
    }
    JoinKeepsOut(lines, newLine, '{');
    JoinKeepsOut(lines, newLine, '}');
  }

  /** For settings and file paths without braces, PublishPackage's project
      text is its template with each of its placeholders replaced by its
      value, the "{ToolsToInclude}" one by the joined items; a template using
      only these placeholders keeps no '{'. */
  lemma {:induction false} PublishPackageProjectInstantiates(pieces: seq<Piece>, tool: Tool, universal: bool,
                                                             filesIn: string -> seq<string>, newLine: string)
    requires WellFormed(pieces) && PlainTool(tool) && BraceFree(newLine)
    requires forall rid :: rid in RequiredRids(universal) ==>
               forall j :: 0 <= j < |filesIn(RuntimeDir(rid))| ==> BraceFree(filesIn(RuntimeDir(rid))[j])
    ensures var tools := Join(ToolsToInclude(RequiredRids(universal), filesIn), newLine);
            PublishPackageProject(Render(pieces), tool, universal, filesIn, newLine) ==
            Instantiate(pieces, PublishPackageNames, PublishPackageValues(tool, tools))
    ensures (forall k :: 0 <= k < |pieces| ==> pieces[k].Hole? ==> pieces[k].name in PublishPackageNames) ==>
            '{' !in PublishPackageProject(Render(pieces), tool, universal, filesIn, newLine)
  {
    var rids := RequiredRids(universal);
    RequiredRidsBraceFree(universal);
    assert forall k :: 0 <= k < |rids| ==> rids[k] in RequiredRids(universal);
    ToolsBraceFree(rids, filesIn, newLine);
    var values := PublishPackageValues(tool, Join(ToolsToInclude(rids, filesIn), newLine));
    PublishPackageValuesBraceFree(tool, Join(ToolsToInclude(rids, filesIn), newLine));
    PublishPackageProjectIsReplaceEach(Render(pieces), tool, universal, filesIn, newLine);
    ReplaceEachInstantiates(pieces, PublishPackageNames, values);
    if forall k :: 0 <= k < |pieces| ==> pieces[k].Hole? ==> pieces[k].name in PublishPackageNames {
      NoPlaceholderSurvives(pieces, PublishPackageNames, values);
    }
  }
}
