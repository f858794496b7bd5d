/** The skill generator of skills/n8n-mcp-server/src/tools/generate-skill.ts:
    `generateMarkdown` renders a node record as a Markdown document line by
    line, `generateSkill` renders one node found by name, and
    `batchGenerateSkills` selects nodes by name or category and renders
    each. `JSON.stringify` is the parameter `js`; writing files is the
    parameter `written`, whether the write of a node's file succeeds. */
module SkillMarkdown {
  import opened Wrappers
  import opened Text
  import opened JsonValue
  import opened N8nNodes
  import Normalize

  /** `JSON.stringify(v)` and `JSON.stringify(v, null, 2)`. */
  datatype JsonText = JsonText(compact: Json -> string, pretty: Json -> string)

  const NameLabel: string := "- **Name:** "
  const CategoryLabel: string := "- **Category:** "
  const VersionLabel: string := "- **Version:** "
  const DocsLabel: string := "- **Docs:** "
  const CredentialsLabel: string := "- **Credentials:** "
  const TypeLabel: string := "- **Type:** "
  const DescriptionLabel: string := "- **Description:** "
  const DefaultLabel: string := "- **Default:** "
  const OptionsLabel: string := "- **Options:** "
  const RequiredHeading: string := "### Required"
  const OptionalHeading: string := "### Optional"
  const Fence: string := "```"
  const JsonFence: string := "```json"

  const Tips: seq<string> := [
    "- Use expressions with `{{ $json.fieldName }}` to reference data from previous nodes",
    "- Access environment variables with `{{ $env.VARIABLE_NAME }}`",
    "- Use `{{ $now }}` for current timestamp"]

  // ---------------------------------------------------------------- filters

  /** `s.filter(f)`, in order. */
  function Filter<T>(s: seq<T>, f: T -> bool): (r: seq<T>)
    ensures |r| <= |s|
    ensures forall i :: 0 <= i < |r| ==> f(r[i]) && r[i] in s
    ensures forall x :: x in s && f(x) ==> x in r
  {
    if s == [] then []
    else
      var init := s[..|s| - 1];
      assert forall x :: x in init ==> x in s;
      assert s == init + [s[|s| - 1]];
      Filter(init, f) + if f(s[|s| - 1]) then [s[|s| - 1]] else []
  }

  /** Filtering keeps the original order: it distributes over
      concatenation. */
  lemma {:induction false} FilterAppend<T>(a: seq<T>, b: seq<T>, f: T -> bool)
    ensures Filter(a + b, f) == Filter(a, f) + Filter(b, f)
  {
    if b == [] {
      assert a + b == a;
    } else {
      var init := b[..|b| - 1];
      assert (a + b)[..|a + b| - 1] == a + init;
      assert (a + b)[|a + b| - 1] == b[|b| - 1];
      FilterAppend(a, init, f);
    }
  }

  /** A filter and its complement `g` split the list: together they hold
      every element exactly as often as the list does. */
  lemma {:induction false} FilterPartition<T>(s: seq<T>, f: T -> bool, g: T -> bool)
    requires forall x :: g(x) == !f(x)
    ensures multiset(Filter(s, f)) + multiset(Filter(s, g)) == multiset(s)
  {
    if s != [] {
      var init := s[..|s| - 1];
      var x := s[|s| - 1];
      FilterPartition(init, f, g);
      assert s == init + [x];
      var a, b := Filter(init, f), Filter(init, g);
      FilterSnoc(s, f);
      FilterSnoc(s, g);
      assert g(x) == !f(x);
      PartitionStep(s, init, x, a, b, Filter(s, f), Filter(s, g));
    }
  }

  /** One more element lands on exactly one side of a partition. */
  lemma PartitionStep<T>(s: seq<T>, init: seq<T>, x: T, a: seq<T>, b: seq<T>, a': seq<T>, b': seq<T>)
    requires s == init + [x] && multiset(a) + multiset(b) == multiset(init)
    requires (a' == a + [x] && b' == b) || (a' == a && b' == b + [x])
    ensures multiset(a') + multiset(b') == multiset(s)
  {
    assert multiset(s) == multiset(init) + multiset{x};
    assert multiset(a + [x]) == multiset(a) + multiset{x};
    assert multiset(b + [x]) == multiset(b) + multiset{x};
  }

  lemma FilterSnoc<T>(s: seq<T>, f: T -> bool)
    requires s != []
    ensures Filter(s, f) == Filter(s[..|s| - 1], f) + if f(s[|s| - 1]) then [s[|s| - 1]] else []
  {
  }

  // ---------------------------------------------------------------- sections

  /** `p.required` is truthy. */
  predicate IsRequired(p: Parameter)
  {
    p.required == Some(true)
  }

  predicate IsOptional(p: Parameter)
  {
    !IsRequired(p)
  }

  function Header(n: N8nNode): seq<string>
  {
    ["# n8n: " + n.displayName, "", "> " + n.description, ""]
  }

  function CategoryLine(n: N8nNode): string
  {
    CategoryLabel + n.category + if Present(n.subcategory) then " > " + n.subcategory.value else ""
  }

  predicate HasCredentials(n: N8nNode)
  {
    n.credentials.Some? && |n.credentials.value| > 0
  }

  function Overview(n: N8nNode): seq<string>
  {
    ["## Overview", "", NameLabel + "`" + n.name + "`", CategoryLine(n), VersionLabel + IntToString(n.version)]
    + (if Present(n.documentation) then [DocsLabel + n.documentation.value] else [])
    + (if HasCredentials(n) then [CredentialsLabel + Join(n.credentials.value, ", ")] else [])
    + [""]
  }

  predicate HasOptions(p: Parameter)
  {
    p.options.Some? && |p.options.value| > 0
  }

  /** `options.map((o) => \`${o.value}\`)`, the values in backquotes. */
  function QuotedValues(os: seq<ParamOption>): (r: seq<string>)
    ensures |r| == |os|
  {
    seq(|os|, i requires 0 <= i < |os| => "`" + os[i].value + "`")
  }

  /** The lines of one parameter; `optional` says whether its section
      shows defaults. */
  function ParamLines(p: Parameter, optional: bool, js: JsonText): seq<string>
  {
    ["#### `" + p.name + "`", TypeLabel + p.kind]
    + (if Present(p.description) then [DescriptionLabel + p.description.value] else [])
    + (if optional && p.default.Some? then [DefaultLabel + "`" + js.compact(p.default.value) + "`"] else [])
    + (if HasOptions(p) then [OptionsLabel + Join(QuotedValues(p.options.value), ", ")] else [])
    + [""]
  }

  function Blocks(ps: seq<Parameter>, optional: bool, js: JsonText): seq<string>
  {
    if ps == [] then []
    else Blocks(ps[..|ps| - 1], optional, js) + ParamLines(ps[|ps| - 1], optional, js)
  }

  function Parameters(n: N8nNode, js: JsonText): seq<string>
  {
    var required := Filter(n.parameters, IsRequired);
    var optional := Filter(n.parameters, IsOptional);
    if |n.parameters| == 0 then []
    else
      ["## Parameters", ""] + Section(RequiredHeading, required, false, js) + Section(OptionalHeading, optional, true, js)
  }

  predicate HasExamples(n: N8nNode)
  {
    n.examples.Some? && |n.examples.value| > 0
  }

  function ExampleLines(e: Example, js: JsonText): seq<string>
  {
    ["### " + e.name, "", e.description, "", JsonFence, js.pretty(e.workflow), Fence, ""]
  }

  function ExampleBlocks(es: seq<Example>, js: JsonText): seq<string>
  {
    if es == [] then [] else ExampleBlocks(es[..|es| - 1], js) + ExampleLines(es[|es| - 1], js)
  }

  function Examples(n: N8nNode, js: JsonText): seq<string>
  {
    if HasExamples(n) then ["## Examples", ""] + ExampleBlocks(n.examples.value, js) else []
  }

  /** `p.required || p.default !== undefined`. */
  predicate InTemplate(p: Parameter)
  {
    IsRequired(p) || p.default.Some?
  }

  /** `p.default ?? \`<${p.type}>\``: the placeholder when the default is
      `null` or `undefined`. */
  function TemplateValue(p: Parameter): (v: Json)
    ensures v != JNull
    ensures p.default.Some? && p.default.value != JNull ==> v == p.default.value
    ensures p.default.None? || p.default.value == JNull ==> v == JString("<" + p.kind + ">")
  {
    if p.default.Some? && p.default.value != JNull then p.default.value else JString("<" + p.kind + ">")
  }

  /** The entries handed to `Object.fromEntries`. */
  function TemplateEntries(ps: seq<Parameter>): (r: seq<Member>)
    ensures |r| <= |ps|
  {
    if ps == [] then []
    else
      var last := ps[|ps| - 1];
      TemplateEntries(ps[..|ps| - 1]) + if InTemplate(last) then [Member(last.name, TemplateValue(last))] else []
  }

  /** The object whose pretty form is the workflow template. */
  function Template(n: N8nNode): Json
  {
    JObject([
      Member("type", JString("n8n-nodes-base." + n.name)),
      Member("typeVersion", JNumber(n.version)),
      Member("position", JArray([JNumber(0), JNumber(0)])),
      Member("parameters", JObject(Normalize.Assign(TemplateEntries(n.parameters))))])
  }

  function TemplateSection(n: N8nNode, js: JsonText): seq<string>
  {
    ["## Workflow JSON Template", "", JsonFence, js.pretty(Template(n)), Fence, ""]
  }

  function TipsSection(): seq<string>
  {
    ["## Tips", ""] + Tips + [""]
  }

  /** Every line of the document, in order. */
  function Lines(n: N8nNode, js: JsonText): seq<string>
  {
    Header(n) + Overview(n) + Parameters(n, js) + Examples(n, js) + TemplateSection(n, js) + TipsSection()
  }

  /** The document `generateMarkdown` returns. */
  function Markdown(n: N8nNode, js: JsonText): string
  {
    Join(Lines(n, js), "\n")
  }

  // ---------------------------------------------------------------- rendering

  /** The pushes for one parameter (the body of either parameter loop). */
  method PushParameter(lines: seq<string>, p: Parameter, optional: bool, js: JsonText)
    returns (r: seq<string>)
    ensures r == lines + ParamLines(p, optional, js)
  {
    r := lines + ["#### `" + p.name + "`"];
    r := r + [TypeLabel + p.kind];
    if p.description.Some? && p.description.value != [] {
      r := r + [DescriptionLabel + p.description.value];
    }
    if optional && p.default.Some? {
      r := r + [DefaultLabel + "`" + js.compact(p.default.value) + "`"];
    }
    if p.options.Some? && |p.options.value| > 0 {
      r := r + [OptionsLabel + Join(QuotedValues(p.options.value), ", ")];
    }
    r := r + [""];
  }

  /** One parameter loop: the blocks of `ps`, pushed in order. */
  method PushParameters(lines: seq<string>, ps: seq<Parameter>, optional: bool, js: JsonText)
    returns (r: seq<string>)
    ensures r == lines + Blocks(ps, optional, js)
  {
    r := lines;
    for i := 0 to |ps|
      invariant r == lines + Blocks(ps[..i], optional, js)
    {
      r := PushParameter(r, ps[i], optional, js);
      BlocksSnoc(ps, i, optional, js);
      AppendAssoc(lines, Blocks(ps[..i], optional, js), ParamLines(ps[i], optional, js));
    }
    assert ps[..|ps|] == ps;
  }

  lemma BlocksSnoc(ps: seq<Parameter>, i: nat, optional: bool, js: JsonText)
    requires i < |ps|
    ensures Blocks(ps[..i + 1], optional, js) == Blocks(ps[..i], optional, js) + ParamLines(ps[i], optional, js)
  {
    assert ps[..i + 1][..i] == ps[..i];
  }

  lemma AppendAssoc<T>(a: seq<T>, b: seq<T>, c: seq<T>)
    ensures a + b + c == a + (b + c)
  {
  }

  /** The header and overview pushes of `generateMarkdown`. */
  method PushOverview(lines: seq<string>, n: N8nNode) returns (r: seq<string>)
    ensures r == lines + Header(n) + Overview(n)
  {
    r := lines + ["# n8n: " + n.displayName, "", "> " + n.description, ""];
    ghost var before := r;
    r := r + ["## Overview", "", NameLabel + "`" + n.name + "`"];
    var sub := if n.subcategory.Some? && n.subcategory.value != [] then " > " + n.subcategory.value else "";
    r := r + [CategoryLabel + n.category + sub];
    r := r + [VersionLabel + IntToString(n.version)];
    if n.documentation.Some? && n.documentation.value != [] {
      r := r + [DocsLabel + n.documentation.value];
    }
    if n.credentials.Some? && |n.credentials.value| > 0 {
      r := r + [CredentialsLabel + Join(n.credentials.value, ", ")];
    }
    r := r + [""];
    assert r == before + Overview(n);
  }

  /** The lines of the Required or the Optional section: nothing when
      its list is empty. */
  function Section(heading: string, ps: seq<Parameter>, optional: bool, js: JsonText): seq<string>
  {
    if |ps| > 0 then [heading, ""] + Blocks(ps, optional, js) else []
  }

  /** The pushes for the Required or the Optional section. */
  method PushSection(lines: seq<string>, heading: string, ps: seq<Parameter>, optional: bool, js: JsonText)
    returns (r: seq<string>)
    ensures r == lines + Section(heading, ps, optional, js)
  {
    r := lines;
    if |ps| > 0 {
      r := r + [heading, ""];
      r := PushParameters(r, ps, optional, js);
    }
  }

  /** The parameter pushes of `generateMarkdown`. */
  method PushParameterSection(lines: seq<string>, n: N8nNode, js: JsonText) returns (r: seq<string>)
    ensures r == lines + Parameters(n, js)
  {
    r := lines;
    if |n.parameters| > 0 {
      r := r + ["## Parameters", ""];
      var required := Filter(n.parameters, IsRequired);
      var optional := Filter(n.parameters, IsOptional);
      r := PushSection(r, RequiredHeading, required, false, js);
      r := PushSection(r, OptionalHeading, optional, true, js);
    }
  }

  /** The example pushes of `generateMarkdown`. */
  method PushExamples(lines: seq<string>, n: N8nNode, js: JsonText) returns (r: seq<string>)
    ensures r == lines + Examples(n, js)
  {
    r := lines;
    if n.examples.Some? && |n.examples.value| > 0 {
      r := r + ["## Examples", ""];
      var es := n.examples.value;
      ghost var start := r;
      for i := 0 to |es|
        invariant r == start + ExampleBlocks(es[..i], js)
      {
        assert es[..i + 1][..i] == es[..i];
        r := r + ["### " + es[i].name, "", es[i].description, ""];
        r := r + [JsonFence, js.pretty(es[i].workflow), Fence, ""];
      }
      assert es[..|es|] == es;
    }
  }

  /** The template and tips pushes of `generateMarkdown`. */
  method PushTemplateAndTips(lines: seq<string>, n: N8nNode, js: JsonText) returns (r: seq<string>)
    ensures r == lines + TemplateSection(n, js) + TipsSection()
  {
    r := lines + ["## Workflow JSON Template", "", JsonFence];
    r := r + [js.pretty(Template(n))];
    r := r + [Fence, ""];
    ghost var before := r;
    r := r + ["## Tips", ""] + Tips + [""];
    assert r == before + TipsSection();
  }

  /** `generateMarkdown`: the line list, section by section, joined with
      line feeds. */
  method GenerateMarkdown(n: N8nNode, js: JsonText) returns (md: string)
    ensures md == Markdown(n, js)
  {
    var lines: seq<string> := [];
    lines := PushOverview(lines, n);
    assert lines == Header(n) + Overview(n);
    lines := PushParameterSection(lines, n, js);
    lines := PushExamples(lines, n, js);
    lines := PushTemplateAndTips(lines, n, js);
    assert lines == Lines(n, js);
    md := Join(lines, "\n");
  }

  // ---------------------------------------------------------------- what the document holds

  lemma {:induction false} JoinAppend(a: seq<string>, b: seq<string>, sep: string)
    requires |a| >= 1 && |b| >= 1
    ensures Join(a + b, sep) == Join(a, sep) + sep + Join(b, sep)
  {
    if |a| == 1 {
      assert (a + b)[1..] == b;
    } else {
      assert (a + b)[1..] == a[1..] + b;
      JoinAppend(a[1..], b, sep);
    }
  }

  lemma JoinHeader(a: string, b: string, rest: seq<string>, sep: string)
    requires |rest| >= 1
    ensures Join([a, "", b, ""] + rest, sep) == a + sep + sep + b + sep + sep + Join(rest, sep)
  {
    var e: string := [];
    var t3 := [e] + rest;
    var t2 := [b] + t3;
    var t1 := [e] + t2;
    assert [a, e, b, e] + rest == [a] + t1;
    JoinCons(e, rest, sep);
    JoinCons(b, t3, sep);
    JoinCons(e, t2, sep);
    JoinCons(a, t1, sep);
    SixParts(a, sep, b, Join(rest, sep));
  }

  lemma JoinCons(x: string, t: seq<string>, sep: string)
    requires |t| >= 1
    ensures Join([x] + t, sep) == x + sep + Join(t, sep)
  {
    assert ([x] + t)[1..] == t;
  }

  lemma SixParts(a: string, sep: string, b: string, j: string)
    ensures a + sep + ([] + sep + (b + sep + ([] + sep + j))) == a + sep + sep + b + sep + sep + j
  {
  }

  lemma RegroupLines(h: seq<string>, o: seq<string>, p: seq<string>, e: seq<string>, t: seq<string>, x: seq<string>)
    ensures h + o + p + e + t + x == h + (o + p + e + t + x)
  {
  }

  lemma PrefixStartsWith(p: string, q: string)
    ensures StartsWith(p + q, p)
  {
    assert (p + q)[..|p|] == p;
  }

  /** The document opens with the display name as a level-one heading, an
      empty line, the description as a quote and another empty line. */
  lemma MarkdownHeader(n: N8nNode, js: JsonText)
    ensures StartsWith(Markdown(n, js), "# n8n: " + n.displayName + "\n" + "\n" + ("> " + n.description) + "\n" + "\n")
  {
    var rest := MarkdownAfterHeader(n, js);
    PrefixStartsWith("# n8n: " + n.displayName + "\n" + "\n" + ("> " + n.description) + "\n" + "\n", Join(rest, "\n"));
  }

  /** The first four lines are the heading, an empty line, the quoted
      description and an empty line. */
  lemma HeaderLines(n: N8nNode, js: JsonText)
    ensures Lines(n, js)[..4] == ["# n8n: " + n.displayName, "", "> " + n.description, ""]
  {
    var rest := MarkdownAfterHeader(n, js);
  }

  /** The document is the header's four lines joined, then the rest. */
  lemma MarkdownAfterHeader(n: N8nNode, js: JsonText) returns (rest: seq<string>)
    ensures Lines(n, js) == Header(n) + rest
    ensures Header(n) == ["# n8n: " + n.displayName, "", "> " + n.description, ""]
    ensures Markdown(n, js) == "# n8n: " + n.displayName + "\n" + "\n" + ("> " + n.description) + "\n" + "\n" + Join(rest, "\n")
  {
    var a := "# n8n: " + n.displayName;
    var b := "> " + n.description;
    rest := Overview(n) + Parameters(n, js) + Examples(n, js) + TemplateSection(n, js) + TipsSection();
    RegroupLines(Header(n), Overview(n), Parameters(n, js), Examples(n, js), TemplateSection(n, js), TipsSection());
    JoinHeader(a, b, rest, "\n");
  }

  /** The optional lines of the overview: a Docs line exactly when there
      is documentation, a Credentials line exactly when there are
      credentials (joined with commas), and the subcategory after the
      category only when there is one. */
  lemma OverviewLines(n: N8nNode)
    ensures (exists i :: 0 <= i < |Overview(n)| && StartsWith(Overview(n)[i], DocsLabel)) <==> Present(n.documentation)
    ensures (exists i :: 0 <= i < |Overview(n)| && StartsWith(Overview(n)[i], CredentialsLabel)) <==> HasCredentials(n)
    ensures Present(n.documentation) ==> DocsLabel + n.documentation.value in Overview(n)
    ensures HasCredentials(n) ==> CredentialsLabel + Join(n.credentials.value, ", ") in Overview(n)
    ensures Overview(n)[3] == CategoryLine(n)
    ensures Present(n.subcategory) ==> CategoryLine(n) == CategoryLabel + n.category + " > " + n.subcategory.value
    ensures !Present(n.subcategory) ==> CategoryLine(n) == CategoryLabel + n.category
  {
    var ov := Overview(n);
    forall i | 0 <= i < |ov|
      ensures StartsWith(ov[i], DocsLabel) ==> Present(n.documentation) && i == 5
      ensures StartsWith(ov[i], CredentialsLabel) ==> HasCredentials(n) && i == |ov| - 2
    {
      OverviewLine(n, i);
    }
    if Present(n.documentation) {
      assert StartsWith(ov[5], DocsLabel);
    }
    if HasCredentials(n) {
      assert StartsWith(ov[|ov| - 2], CredentialsLabel);
    }
  }

  lemma OverviewLine(n: N8nNode, i: nat)
    requires i < |Overview(n)|
    ensures StartsWith(Overview(n)[i], DocsLabel) ==> Present(n.documentation) && i == 5
    ensures StartsWith(Overview(n)[i], CredentialsLabel) ==> HasCredentials(n) && i == |Overview(n)| - 2
  {
    var ov := Overview(n);
    var line := ov[i];
    if i == 0 || i == |ov| - 1 {
      LabelMismatch(line, DocsLabel, 0);
      LabelMismatch(line, CredentialsLabel, 0);
    } else if i == 1 {
      LabelMismatch(line, DocsLabel, 0);
      LabelMismatch(line, CredentialsLabel, 0);
    } else if i == 2 {
      assert line == NameLabel + "`" + n.name + "`";
      LabelMismatch(line, DocsLabel, 4);
      LabelMismatch(line, CredentialsLabel, 4);
    } else if i == 3 {
      assert line == CategoryLabel + (n.category + if Present(n.subcategory) then " > " + n.subcategory.value else "");
      LabelMismatch(line, DocsLabel, 4);
      LabelMismatch(line, CredentialsLabel, 5);
    } else if i == 4 {
      assert line == VersionLabel + IntToString(n.version);
      LabelMismatch(line, DocsLabel, 4);
      LabelMismatch(line, CredentialsLabel, 4);
    } else if i == 5 && Present(n.documentation) {
      assert line == DocsLabel + n.documentation.value;
      LabelMismatch(line, CredentialsLabel, 4);
    } else {
      assert HasCredentials(n) && line == CredentialsLabel + Join(n.credentials.value, ", ");
      LabelMismatch(line, DocsLabel, 4);
    }
  }

  /** The lines a parameter block can hold: its heading, a labelled
      detail, or the closing empty line. */
  predicate BlockLine(l: string)
  {
    l == [] || StartsWith(l, "#### `") || StartsWith(l, "- **")
  }

  lemma ParamLineKinds(p: Parameter, optional: bool, js: JsonText, l: string)
    requires l in ParamLines(p, optional, js)
    ensures BlockLine(l)
    ensures StartsWith(l, DefaultLabel) ==> optional && p.default.Some?
  {
    var heading := "#### `" + p.name + "`";
    assert l == heading || l == TypeLabel + p.kind
      || (Present(p.description) && l == DescriptionLabel + p.description.value)
      || (optional && p.default.Some? && l == DefaultLabel + ("`" + js.compact(p.default.value) + "`"))
      || (HasOptions(p) && l == OptionsLabel + Join(QuotedValues(p.options.value), ", "))
      || l == [];
    if l == heading {
      assert heading == "#### `" + (p.name + "`");
      PrefixStartsWith("#### `", p.name + "`");
      LabelMismatch(l, DefaultLabel, 0);
    } else if l == TypeLabel + p.kind {
      PrefixStartsWith("- **", "Type:** " + p.kind);
      LabelMismatch(l, DefaultLabel, 4);
    } else if Present(p.description) && l == DescriptionLabel + p.description.value {
      PrefixStartsWith("- **", "Description:** " + p.description.value);
      LabelMismatch(l, DefaultLabel, 6);
    } else if optional && p.default.Some? && l == DefaultLabel + ("`" + js.compact(p.default.value) + "`") {
      PrefixStartsWith("- **", "Default:** " + ("`" + js.compact(p.default.value) + "`"));
    } else if HasOptions(p) && l == OptionsLabel + Join(QuotedValues(p.options.value), ", ") {
      PrefixStartsWith("- **", "Options:** " + Join(QuotedValues(p.options.value), ", "));
      LabelMismatch(l, DefaultLabel, 4);
    } else {
      LabelMismatch(l, DefaultLabel, 0);
    }
  }

  /** A parameter's block opens with its name as a heading and has a
      Default line exactly when it is shown in the Optional section and
      has a defined default. */
  lemma ParamBlock(p: Parameter, optional: bool, js: JsonText)
    ensures ParamLines(p, optional, js)[0] == "#### `" + p.name + "`"
    ensures (exists i :: 0 <= i < |ParamLines(p, optional, js)| && StartsWith(ParamLines(p, optional, js)[i], DefaultLabel))
      <==> optional && p.default.Some?
  {
    var ls := ParamLines(p, optional, js);
    forall i | 0 <= i < |ls| ensures StartsWith(ls[i], DefaultLabel) ==> optional && p.default.Some? {
      ParamLineKinds(p, optional, js, ls[i]);
    }
    if optional && p.default.Some? {
      var k := if Present(p.description) then 3 else 2;
      assert ls[k] == DefaultLabel + ("`" + js.compact(p.default.value) + "`");
      PrefixStartsWith(DefaultLabel, "`" + js.compact(p.default.value) + "`");
    }
  }

  lemma {:induction false} BlocksLines(ps: seq<Parameter>, optional: bool, js: JsonText)
    ensures forall l :: l in Blocks(ps, optional, js) ==> BlockLine(l)
    ensures !optional ==> forall l :: l in Blocks(ps, optional, js) ==> !StartsWith(l, DefaultLabel)
  {
    if ps != [] {
      BlocksLines(ps[..|ps| - 1], optional, js);
      forall l | l in ParamLines(ps[|ps| - 1], optional, js)
        ensures BlockLine(l) && (!optional ==> !StartsWith(l, DefaultLabel))
      {
        ParamLineKinds(ps[|ps| - 1], optional, js, l);
      }
    }
  }

  /** Every parameter is listed in exactly one of the two sections, by
      whether `required` is truthy, and each section keeps catalog order
      (`Filter` distributes over concatenation, `FilterAppend`). */
  lemma ParameterSplit(ps: seq<Parameter>)
    ensures multiset(Filter(ps, IsRequired)) + multiset(Filter(ps, IsOptional)) == multiset(ps)
    ensures forall p :: p in Filter(ps, IsRequired) <==> p in ps && IsRequired(p)
    ensures forall p :: p in Filter(ps, IsOptional) <==> p in ps && !IsRequired(p)
  {
    FilterPartition(ps, IsRequired, IsOptional);
  }

  /** A section's heading appears among the parameter lines exactly when
      its list is not empty. */
  lemma SectionHeadings(n: N8nNode, js: JsonText)
    ensures RequiredHeading in Parameters(n, js) <==> |Filter(n.parameters, IsRequired)| > 0
    ensures OptionalHeading in Parameters(n, js) <==> |Filter(n.parameters, IsOptional)| > 0
  {
    var req := Filter(n.parameters, IsRequired);
    var opt := Filter(n.parameters, IsOptional);
    HeadingsDiffer();
    InSection(RequiredHeading, RequiredHeading, req, false, js);
    InSection(RequiredHeading, OptionalHeading, req, false, js);
    InSection(OptionalHeading, RequiredHeading, opt, true, js);
    InSection(OptionalHeading, OptionalHeading, opt, true, js);
    if |n.parameters| == 0 {
      assert |req| == 0 && |opt| == 0;
    } else {
      var sr := Section(RequiredHeading, req, false, js);
      var so := Section(OptionalHeading, opt, true, js);
      assert Parameters(n, js) == ["## Parameters", ""] + sr + so;
    }
  }

  /** The two section headings are not parameter block lines, and differ
      from each other and from the Parameters heading. */
  lemma HeadingsDiffer()
    ensures !BlockLine(RequiredHeading) && !BlockLine(OptionalHeading)
    ensures RequiredHeading != OptionalHeading
    ensures RequiredHeading != "## Parameters" && OptionalHeading != "## Parameters"
    ensures RequiredHeading != "" && OptionalHeading != ""
  {
    LabelMismatch(RequiredHeading, "#### `", 3);
    LabelMismatch(RequiredHeading, "- **", 0);
    LabelMismatch(OptionalHeading, "#### `", 3);
    LabelMismatch(OptionalHeading, "- **", 0);
    assert RequiredHeading[4] != OptionalHeading[4];
    assert RequiredHeading[2] != "## Parameters"[2];
    assert OptionalHeading[2] != "## Parameters"[2];
  }

  /** A line that is no block line is in a section only as its heading. */
  lemma InSection(h: string, x: string, ps: seq<Parameter>, optional: bool, js: JsonText)
    requires !BlockLine(x)
    ensures x in Section(h, ps, optional, js) <==> |ps| > 0 && x == h
  {
    BlocksLines(ps, optional, js);
  }

  /** The Required section shows no Default line. */
  lemma RequiredShowsNoDefault(n: N8nNode, js: JsonText)
    ensures forall l :: l in Section(RequiredHeading, Filter(n.parameters, IsRequired), false, js) ==>
      !StartsWith(l, DefaultLabel)
  {
    BlocksLines(Filter(n.parameters, IsRequired), false, js);
    LabelMismatch(RequiredHeading, DefaultLabel, 0);
    LabelMismatch("", DefaultLabel, 0);
  }

  /** Parameters with pairwise distinct names. */
  predicate DistinctParamNames(ps: seq<Parameter>)
  {
    forall i, j :: 0 <= i < j < |ps| ==> ps[i].name != ps[j].name
  }

  lemma {:induction false} TemplateKeys(ps: seq<Parameter>, k: string)
    ensures k in Keys(TemplateEntries(ps)) <==> exists i :: 0 <= i < |ps| && InTemplate(ps[i]) && ps[i].name == k
  {
    if ps != [] {
      var init := ps[..|ps| - 1];
      TemplateKeys(init, k);
      var e := TemplateEntries(init);
      var last := ps[|ps| - 1];
      var r := TemplateEntries(ps);
      if InTemplate(last) {
        assert r == e + [Member(last.name, TemplateValue(last))];
        assert Keys(r) == Keys(e) + [last.name];
      } else {
        assert r == e;
      }
      if exists i :: 0 <= i < |ps| && InTemplate(ps[i]) && ps[i].name == k {
        var i :| 0 <= i < |ps| && InTemplate(ps[i]) && ps[i].name == k;
        if i < |init| {
          assert init[i] == ps[i];
        }
      }
      if exists i :: 0 <= i < |init| && InTemplate(init[i]) && init[i].name == k {
        var i :| 0 <= i < |init| && InTemplate(init[i]) && init[i].name == k;
        assert ps[i] == init[i];
      }
    }
  }

  lemma {:induction false} TemplateEntriesUnique(ps: seq<Parameter>)
    requires DistinctParamNames(ps)
    ensures UniqueKeys(TemplateEntries(ps))
    ensures forall i :: 0 <= i < |ps| && InTemplate(ps[i]) ==> Member(ps[i].name, TemplateValue(ps[i])) in TemplateEntries(ps)
  {
    if ps != [] {
      var init := ps[..|ps| - 1];
      var last := ps[|ps| - 1];
      assert DistinctParamNames(init);
      TemplateEntriesUnique(init);
      TemplateKeys(init, last.name);
      var e := TemplateEntries(init);
      if InTemplate(last) {
        assert last.name !in Keys(e);
      }
      forall i | 0 <= i < |ps| && InTemplate(ps[i])
        ensures Member(ps[i].name, TemplateValue(ps[i])) in TemplateEntries(ps)
      {
        if i < |init| {
          assert init[i] == ps[i];
        }
      }
    }
  }

  lemma UniqueGet(ms: seq<Member>, m: Member)
    requires UniqueKeys(ms) && m in ms
    ensures Get(ms, m.key) == Some(m.value)
  {
    var j :| 0 <= j < |ms| && ms[j] == m;
    assert m.key in Keys(ms);
    var i :| 0 <= i < |ms| && ms[i] == Member(m.key, Get(ms, m.key).value);
    assert i == j;
  }

  /** The template's `parameters` object: a key for exactly the parameters
      that are required or have a defined default (`Object.fromEntries`);
      when parameter names are distinct, each key holds its parameter's
      default, or the placeholder. */
  lemma TemplateParameters(n: N8nNode, k: string)
    ensures k in Keys(Normalize.Assign(TemplateEntries(n.parameters))) <==>
      exists i :: 0 <= i < |n.parameters| && InTemplate(n.parameters[i]) && n.parameters[i].name == k
    ensures DistinctParamNames(n.parameters) ==>
      forall i :: 0 <= i < |n.parameters| && InTemplate(n.parameters[i]) ==>
        Get(Normalize.Assign(TemplateEntries(n.parameters)), n.parameters[i].name) == Some(TemplateValue(n.parameters[i]))
  {
    var ps := n.parameters;
    var e := TemplateEntries(ps);
    Normalize.AssignLaterWins(e, k);
    TemplateKeys(ps, k);
    if DistinctParamNames(ps) {
      TemplateEntriesUnique(ps);
      Normalize.AssignUnique(e);
      forall i | 0 <= i < |ps| && InTemplate(ps[i])
        ensures Get(Normalize.Assign(e), ps[i].name) == Some(TemplateValue(ps[i]))
      {
        UniqueGet(e, Member(ps[i].name, TemplateValue(ps[i])));
      }
    }
  }

  // ---------------------------------------------------------------- files

  /** `n8n-${node.name}.md`. */
  function FileName(n: N8nNode): string
  {
    "n8n-" + n.name + ".md"
  }

  /** `join(GENERATED_PATH, filename)`, with the directory `dir`. */
  function OutputPath(dir: string, n: N8nNode): string
  {
    dir + "/" + FileName(n)
  }

  /** The file name carries the node's name between the fixed prefix and
      the extension, so distinct names never share a file. */
  lemma FileNameParts(n: N8nNode, m: N8nNode)
    ensures StartsWith(FileName(n), "n8n-")
    ensures |FileName(n)| == |n.name| + 7 && FileName(n)[4..|FileName(n)| - 3] == n.name
    ensures FileName(n)[|FileName(n)| - 3..] == ".md"
    ensures FileName(n) == FileName(m) ==> n.name == m.name
  {
    var f := FileName(n);
    assert f == "n8n-" + (n.name + ".md");
    PrefixStartsWith("n8n-", n.name + ".md");
    assert f[4..|f| - 3] == n.name;
    var g := FileName(m);
    assert g[4..|g| - 3] == m.name;
  }

  // ---------------------------------------------------------------- batch

  const NoSelection: string := "Either 'category' or 'nodes' must be specified"

  /** Some requested name names the node. */
  predicate NamedByAny(n: N8nNode, names: seq<string>)
  {
    exists x :: x in names && NamedBy(n, x)
  }

  predicate InCategory(n: N8nNode, category: string)
  {
    EqualsIgnoreCase(n.category, category)
  }

  /** The target selection of `batchGenerateSkills`: a non-empty name
      list first, then a truthy category (`all` meaning every node), and
      otherwise the error. */
  function SelectTargets(all: seq<N8nNode>, category: Option<string>, names: Option<seq<string>>)
    : (r: Result<seq<N8nNode>, string>)
    ensures r.Err? <==> (names.None? || |names.value| == 0) && !Present(category)
    ensures r.Err? ==> r.error == NoSelection
    ensures names.Some? && |names.value| > 0 ==>
      (r.Ok? && forall n :: n in r.value <==> n in all && NamedByAny(n, names.value))
    ensures (names.None? || |names.value| == 0) && Present(category) && EqualsIgnoreCase(category.value, "all") ==>
      r == Ok(all)
    ensures (names.None? || |names.value| == 0) && Present(category) && !EqualsIgnoreCase(category.value, "all") ==>
      r.Ok? && forall n :: n in r.value <==> n in all && InCategory(n, category.value)
  {
    if names.Some? && |names.value| > 0 then Ok(Filter(all, n => NamedByAny(n, names.value)))
    else if Present(category) then
      if EqualsIgnoreCase(category.value, "all") then Ok(all)
      else Ok(Filter(all, n => InCategory(n, category.value)))
    else Err(NoSelection)
  }

  datatype FileResult = FileResult(node: string, path: string, success: bool)

  datatype BatchReport = BatchReport(total: nat, successful: nat, failed: nat, files: seq<FileResult>, outputDirectory: string)

  predicate Succeeded(f: FileResult)
  {
    f.success
  }

  predicate FailedWrite(f: FileResult)
  {
    !f.success
  }

  /** The entry of `results` for one target. */
  function ResultFor(dir: string, n: N8nNode, ok: bool): FileResult
  {
    if ok then FileResult(n.displayName, OutputPath(dir, n), true) else FileResult(n.displayName, "", false)
  }

  /** `batchGenerateSkills`: one result per target, in order, a success
      exactly when its file was written; the tallies add up to the
      number of targets. */
  method BatchGenerateSkills(all: seq<N8nNode>, category: Option<string>, names: Option<seq<string>>,
                             dir: string, written: N8nNode -> bool, js: JsonText)
    returns (r: Result<BatchReport, string>)
    ensures SelectTargets(all, category, names).Err? ==> r == Err(NoSelection)
    ensures SelectTargets(all, category, names).Ok? ==> (r.Ok? &&
      var targets := SelectTargets(all, category, names).value;
      && r.value.total == |targets| == |r.value.files|
      && r.value.successful + r.value.failed == r.value.total
      && r.value.successful == |Filter(r.value.files, Succeeded)|
      && r.value.outputDirectory == dir
      && (forall i :: 0 <= i < |targets| ==> r.value.files[i] == ResultFor(dir, targets[i], written(targets[i]))))
  {
    var selected := SelectTargets(all, category, names);
    if selected.Err? {
      return Err(selected.error);
    }
    var targets := selected.value;
    var results := WriteAll(targets, dir, written, js);
    var successful := |Filter(results, Succeeded)|;
    var failed := |Filter(results, FailedWrite)|;
    TalliesAddUp(results);
    r := Ok(BatchReport(|targets|, successful, failed, results, dir));
  }

  /** The `for` loop of `batchGenerateSkills`: render each target and
      record whether its file was written. */
  method WriteAll(targets: seq<N8nNode>, dir: string, written: N8nNode -> bool, js: JsonText)
    returns (results: seq<FileResult>)
    ensures |results| == |targets|
    ensures forall m :: 0 <= m < |targets| ==> results[m] == ResultFor(dir, targets[m], written(targets[m]))
  {
    results := [];
    for i := 0 to |targets|
      invariant |results| == i
      invariant forall m :: 0 <= m < i ==> results[m] == ResultFor(dir, targets[m], written(targets[m]))
    {
      var node := targets[i];
      var markdown := GenerateMarkdown(node, js);
      var outputPath := OutputPath(dir, node);
      ghost var before := results;
      if written(node) {
        results := results + [FileResult(node.displayName, outputPath, true)];
      } else {
        results := results + [FileResult(node.displayName, "", false)];
      }
      assert results == before + [ResultFor(dir, node, written(node))];
    }
  }

  /** Every result is counted once, as a success or as a failure. */
  lemma TalliesAddUp(results: seq<FileResult>)
    ensures |Filter(results, Succeeded)| + |Filter(results, FailedWrite)| == |results|
  {
    FilterPartition(results, Succeeded, FailedWrite);
    assert |multiset(results)| == |results|;
  }

  datatype SkillReport = SkillReport(success: bool, node: string, path: string, size: nat, message: string)

  /** `generateSkill`: the first node named by the argument, rendered; the
      path is the given one when it is not empty, else the node's file in
      `dir`; the size counts UTF-16 code units. */
  method GenerateSkill(nodes: seq<N8nNode>, nodeName: string, outputPath: Option<string>, dir: string, js: JsonText)
    returns (r: Result<SkillReport, string>)
    ensures FindNamed(nodes, nodeName).None? ==> r == Err(NotFoundMessage(nodeName))
    ensures FindNamed(nodes, nodeName).Some? ==> (r.Ok? &&
      var node := nodes[FindNamed(nodes, nodeName).value];
      && r.value.success
      && r.value.node == node.displayName
      && NamedBy(node, nodeName)
      && r.value.path == (if Present(outputPath) then outputPath.value else OutputPath(dir, node))
      && r.value.size == Utf16Length(Markdown(node, js))
      && r.value.message == "Generated skill file for " + node.displayName)
  {
    var found := FindNamed(nodes, nodeName);
    if found.None? {
      return Err(NotFoundMessage(nodeName));
    }
    var node := nodes[found.value];
    var markdown := GenerateMarkdown(node, js);
    var path := if outputPath.Some? && outputPath.value != [] then outputPath.value else OutputPath(dir, node);
    r := Ok(SkillReport(true, node.displayName, path, Utf16Length(markdown), "Generated skill file for " + node.displayName));
  }
}
