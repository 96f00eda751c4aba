/**
 * Markdown section builders and the document size (context_mcp/utils/doc_generator.py).
 *
 * `json.dumps(input_schema, indent=2)` is opaque here: a tool's schema
 * arrives already rendered, as the string `schemaJson`.
 */
module DocGen {
  import opened Wrappers
  import opened Text

  /**
   * The metadata of one tool: `{"name", "description", "input_schema",
   * "examples", "return_format"}`; a `return_format` of `None` or `""` is falsy.
   */
  datatype ToolMeta = ToolMeta(name: string, description: string, schemaJson: string,
                               examples: seq<string>, returnFormat: Option<string>)

  predicate HasReturnFormat(t: ToolMeta)
  {
    t.returnFormat.Some? && t.returnFormat.value != ""
  }

  // ===========================================================================
  // generate_tool_section
  // ===========================================================================

  // The section is built by `+=`; each function below is one stretch of
  // those appends, applied to the text built so far.

  function WithHeading(t: ToolMeta): string
  {
    "### " + t.name + "\n" + "**Purpose**: " + t.description + "\n\n"
  }

  function WithParameters(prefix: string, t: ToolMeta): string
  {
    prefix + "**Parameters**:\n" + "```json\n" + t.schemaJson + "\n```\n\n"
  }

  function WithExampleBlocks(prefix: string, examples: seq<string>): string
  {
    if examples == [] then prefix
    else WithExampleBlocks(prefix, examples[..|examples| - 1]) + "```python\n" + Strip(examples[|examples| - 1]) + "\n```\n"
  }

  function WithExamples(prefix: string, t: ToolMeta): string
  {
    if t.examples == [] then prefix else WithExampleBlocks(prefix + "**Examples**:\n", t.examples) + "\n"
  }

  function WithReturns(prefix: string, t: ToolMeta): string
  {
    if HasReturnFormat(t) then prefix + "**Returns**: " + t.returnFormat.value + "\n" else prefix
  }

  /** Reference definition of the Markdown section for one tool. */
  function ToolSection(t: ToolMeta): string
  {
    WithReturns(WithExamples(WithParameters(WithHeading(t), t), t), t) + "\n---\n"
  }

  method GenerateToolSection(t: ToolMeta) returns (section: string)
    ensures section == ToolSection(t)
  {
    section := "### " + t.name + "\n";
    section := section + "**Purpose**: " + t.description + "\n\n";

    section := section + "**Parameters**:\n";
    section := section + "```json\n";
    section := section + t.schemaJson;
    section := section + "\n```\n\n";

    if t.examples != [] {
      section := section + "**Examples**:\n";
      ghost var before := section;
      for i := 0 to |t.examples|
        invariant section == WithExampleBlocks(before, t.examples[..i])
      {
        assert t.examples[..i + 1][..i] == t.examples[..i];
        section := section + "```python\n";
        section := section + Strip(t.examples[i]);
        section := section + "\n```\n";
      }
      assert t.examples[..|t.examples|] == t.examples;
      section := section + "\n";
    }

    if HasReturnFormat(t) {
      section := section + "**Returns**: " + t.returnFormat.value + "\n";
    }

    section := section + "\n---\n";
  }

  // The parts of a section, each on its own.

  function Heading(t: ToolMeta): string
  {
    "### " + t.name + "\n**Purpose**: " + t.description + "\n\n"
  }

  function ParametersBlock(t: ToolMeta): string
  {
    "**Parameters**:\n```json\n" + t.schemaJson + "\n```\n\n"
  }

  function ExampleBlock(example: string): string
  {
    "```python\n" + Strip(example) + "\n```\n"
  }

  function ExamplesBlock(t: ToolMeta): string
  {
    if t.examples == [] then "" else "**Examples**:\n" + Concat(MapStrings(t.examples, ExampleBlock)) + "\n"
  }

  function ReturnsLine(t: ToolMeta): string
  {
    if HasReturnFormat(t) then "**Returns**: " + t.returnFormat.value + "\n" else ""
  }

  lemma HeadingIs(t: ToolMeta)
    ensures WithHeading(t) == Heading(t)
  {
  }

  lemma WithParametersIs(prefix: string, t: ToolMeta)
    ensures WithParameters(prefix, t) == prefix + ParametersBlock(t)
  {
    var j, s := "```json\n", t.schemaJson;
    assert prefix + "**Parameters**:\n" + j + s + "\n```\n\n"
        == prefix + ("**Parameters**:\n" + j + s + "\n```\n\n");
  }

  lemma {:induction false} WithExampleBlocksIs(prefix: string, examples: seq<string>)
    ensures WithExampleBlocks(prefix, examples) == prefix + Concat(MapStrings(examples, ExampleBlock))
  {
    if examples == [] {
      assert prefix + "" == prefix;
    } else {
      var init, last := examples[..|examples| - 1], examples[|examples| - 1];
      WithExampleBlocksIs(prefix, init);
      ConcatAppend(MapStrings(init, ExampleBlock), ExampleBlock(last));
      Assoc5(prefix, Concat(MapStrings(init, ExampleBlock)), "```python\n", Strip(last), "\n```\n");
    }
  }

  lemma Assoc4(a: string, b: string, c: string, d: string)
    ensures a + b + c + d == a + (b + c + d)
  {
  }

  lemma Assoc5(a: string, b: string, c: string, d: string, e: string)
    ensures a + b + c + d + e == a + (b + (c + d + e))
  {
  }

  lemma WithExamplesIs(prefix: string, t: ToolMeta)
    ensures WithExamples(prefix, t) == prefix + ExamplesBlock(t)
  {
    if t.examples == [] {
      assert prefix + "" == prefix;
    } else {
      var x := "**Examples**:\n";
      WithExampleBlocksIs(prefix + x, t.examples);
      Assoc4(prefix, x, Concat(MapStrings(t.examples, ExampleBlock)), "\n");
    }
  }

  lemma WithReturnsIs(prefix: string, t: ToolMeta)
    ensures WithReturns(prefix, t) == prefix + ReturnsLine(t)
  {
    if HasReturnFormat(t) {
      var v := t.returnFormat.value;
      assert prefix + "**Returns**: " + v + "\n" == prefix + ("**Returns**: " + v + "\n");
    } else {
      assert prefix + "" == prefix;
    }
  }

  /**
   * A tool section is the heading with the purpose line, the parameters
   * block, the examples block, the returns line and the closing rule, in
   * that order.
   */
  lemma ToolSectionParts(t: ToolMeta)
    ensures ToolSection(t) == Heading(t) + ParametersBlock(t) + ExamplesBlock(t) + ReturnsLine(t) + "\n---\n"
  {
    HeadingIs(t);
    WithParametersIs(WithHeading(t), t);
    WithExamplesIs(WithParameters(WithHeading(t), t), t);
    WithReturnsIs(WithExamples(WithParameters(WithHeading(t), t), t), t);
  }

  /** The section starts with the heading, then the parameters block, and ends with the rule. */
  lemma ToolSectionFrame(t: ToolMeta)
    ensures |ToolSection(t)| >= |Heading(t)| + |ParametersBlock(t)| + 5
    ensures ToolSection(t)[..|Heading(t)|] == "### " + t.name + "\n**Purpose**: " + t.description + "\n\n"
    ensures ToolSection(t)[|Heading(t)|..|Heading(t)| + |ParametersBlock(t)|] == "**Parameters**:\n```json\n" + t.schemaJson + "\n```\n\n"
    ensures ToolSection(t)[|ToolSection(t)| - 5..] == "\n---\n"
  {
    ToolSectionParts(t);
    PartsSlices(Heading(t), ParametersBlock(t), ExamplesBlock(t), ReturnsLine(t), "\n---\n");
  }

  /** Where each of five concatenated parts sits. */
  lemma PartsSlices(a: string, b: string, c: string, d: string, e: string)
    ensures (a + b + c + d + e)[..|a|] == a
    ensures (a + b + c + d + e)[|a|..|a| + |b|] == b
    ensures (a + b + c + d + e)[|a + b + c + d + e| - |e|..] == e
  {
    var s := a + b + c + d + e;
    assert s == a + (b + (c + d + e));
    assert s[|a|..|a| + |b|] == (b + (c + d + e))[..|b|];
  }

  /** The Examples block is there iff there are examples, and then holds each stripped example in its own fence, in order. */
  lemma ExamplesIff(t: ToolMeta)
    ensures ExamplesBlock(t) != "" <==> t.examples != []
    ensures t.examples != [] ==>
      ExamplesBlock(t) == "**Examples**:\n" + Concat(MapStrings(t.examples, ExampleBlock)) + "\n"
      && forall i :: 0 <= i < |t.examples| ==> MapStrings(t.examples, ExampleBlock)[i] == "```python\n" + Strip(t.examples[i]) + "\n```\n"
  {
    forall i | 0 <= i < |t.examples|
      ensures MapStrings(t.examples, ExampleBlock)[i] == "```python\n" + Strip(t.examples[i]) + "\n```\n"
    {
      MapStringsIndex(t.examples, ExampleBlock, i);
    }
  }

  /** The Returns line is there iff `return_format` is truthy. */
  lemma ReturnsIff(t: ToolMeta)
    ensures ReturnsLine(t) != "" <==> HasReturnFormat(t)
    ensures HasReturnFormat(t) ==> ReturnsLine(t) == "**Returns**: " + t.returnFormat.value + "\n"
  {
  }

  // ===========================================================================
  // Fence markers
  // ===========================================================================

  /** Python's `s.count("```")`: non-overlapping occurrences, scanning from the left. */
  function FenceCount(s: string): nat
    decreases |s|
  {
    if |s| < 3 then 0
    else if s[..3] == "```" then 1 + FenceCount(s[3..])
    else FenceCount(s[1..])
  }

  /** Text without a triple backtick counts no fence. */
  lemma {:induction false} FenceCountNone(s: string)
    requires !Contains(s, "```")
    ensures FenceCount(s) == 0
    decreases |s|
  {
    if |s| >= 3 {
      assert s[..3] != "```";
      assert !Contains(s[1..], "```");
      FenceCountNone(s[1..]);
    }
  }

  predicate NoBacktick(s: string)
  {
    forall i :: 0 <= i < |s| ==> s[i] != '`'
  }

  lemma {:induction false} NoBacktickCount(s: string)
    requires NoBacktick(s)
    ensures FenceCount(s) == 0
    decreases |s|
  {
    if |s| >= 3 {
      assert s[..3][0] == s[0];
      NoBacktickCount(s[1..]);
    }
  }

  /**
   * Counting is additive over a cut that no marker can straddle: the left
   * part does not end with a backtick, or the right part does not start with
   * one.
   */
  lemma {:induction false} FenceCountConcat(a: string, b: string)
    requires (a == [] || a[|a| - 1] != '`') || (b == [] || b[0] != '`')
    ensures FenceCount(a + b) == FenceCount(a) + FenceCount(b)
    decreases |a|
  {
    var s := a + b;
    if a == [] {
      assert s == b;
    } else if |s| < 3 {
    } else if |a| >= 3 && a[..3] == "```" {
      assert s[..3] == a[..3];
      assert s[3..] == a[3..] + b;
      FenceCountConcat(a[3..], b);
    } else {
      assert s[..3] != "```" by {
        if |a| >= 3 {
          assert s[..3] == a[..3];
        } else if a[|a| - 1] != '`' {
          assert s[|a| - 1] == a[|a| - 1];
        } else {
          assert s[|a|] == b[0];
        }
      }
      assert s[1..] == a[1..] + b;
      FenceCountConcat(a[1..], b);
    }
  }

  /** A fence opener followed by text without backticks counts once. */
  lemma OpenerCount(tail: string)
    requires NoBacktick(tail)
    ensures FenceCount("```" + tail) == 1
  {
    var s := "```" + tail;
    assert s[..3] == "```";
    assert s[3..] == tail;
    NoBacktickCount(tail);
  }

  /** A stripped example keeps the property of holding no triple backtick. */
  lemma StripNoFence(s: string)
    requires !Contains(s, "```")
    ensures !Contains(Strip(s), "```")
  {
    StripSpec(s);
    var lo := |s| - |StripLeft(s)|;
    if Contains(Strip(s), "```") {
      ContainsInSlice(s, lo, lo + |Strip(s)|, "```");
    }
  }

  /** No text the caller supplies holds a triple backtick. */
  predicate FenceFree(t: ToolMeta)
  {
    !Contains(t.name, "```") && !Contains(t.description, "```") && !Contains(t.schemaJson, "```")
    && (forall i :: 0 <= i < |t.examples| ==> !Contains(t.examples[i], "```"))
    && (t.returnFormat.Some? ==> !Contains(t.returnFormat.value, "```"))
  }

  /** Counting along the appends of the heading: none of its pieces holds a marker. */
  lemma HeadingFences(t: ToolMeta)
    requires FenceFree(t)
    ensures FenceCount(WithHeading(t)) == 0
    ensures WithHeading(t)[|WithHeading(t)| - 1] == '\n'
  {
    var a := "### " + t.name;
    FenceCountNone(t.name);
    NoBacktickCount("### ");
    FenceCountConcat("### ", t.name);
    var b := a + "\n";
    NoBacktickCount("\n");
    FenceCountConcat(a, "\n");
    var c := b + "**Purpose**: ";
    NoBacktickCount("**Purpose**: ");
    FenceCountConcat(b, "**Purpose**: ");
    var d := c + t.description;
    FenceCountNone(t.description);
    FenceCountConcat(c, t.description);
    NoBacktickCount("\n\n");
    FenceCountConcat(d, "\n\n");
  }

  lemma ParametersFences(prefix: string, t: ToolMeta)
    requires FenceFree(t) && prefix != [] && prefix[|prefix| - 1] == '\n'
    ensures FenceCount(WithParameters(prefix, t)) == FenceCount(prefix) + 2
    ensures WithParameters(prefix, t)[|WithParameters(prefix, t)| - 1] == '\n'
  {
    var a := prefix + "**Parameters**:\n";
    assert FenceCount(a) == FenceCount(prefix) && a[|a| - 1] == '\n' by {
      NoBacktickCount("**Parameters**:\n");
      FenceCountConcat(prefix, "**Parameters**:\n");
    }
    var b := a + "```json\n";
    assert FenceCount(b) == FenceCount(prefix) + 1 by {
      OpenerCount("json\n");
      assert "```json\n" == "```" + "json\n";
      FenceCountConcat(a, "```json\n");
    }
    var c := b + t.schemaJson;
    assert FenceCount(c) == FenceCount(prefix) + 1 by {
      FenceCountNone(t.schemaJson);
      assert b[|b| - 1] == '\n';
      FenceCountConcat(b, t.schemaJson);
    }
    assert FenceCount(c + "\n```\n\n") == FenceCount(prefix) + 2 by {
      assert FenceCount("\n```\n\n") == 1 by {
        var s := "\n```\n\n";
        assert s[..3][0] == '\n';
        OpenerCount("\n\n");
        assert s[1..] == "```" + "\n\n";
      }
      FenceCountConcat(c, "\n```\n\n");
    }
  }

  lemma ExampleFences(prefix: string, example: string)
    requires !Contains(example, "```") && prefix != [] && prefix[|prefix| - 1] == '\n'
    ensures FenceCount(prefix + "```python\n" + Strip(example) + "\n```\n") == FenceCount(prefix) + 2
  {
    var e := Strip(example);
    StripNoFence(example);
    FenceCountNone(e);
    var a := prefix + "```python\n";
    OpenerCount("python\n");
    assert "```python\n" == "```" + "python\n";
    FenceCountConcat(prefix, "```python\n");
    var b := a + e;
    FenceCountConcat(a, e);
    assert FenceCount("\n```\n") == 1 by {
      OpenerCount("\n");
      assert "\n```\n"[1..] == "```" + "\n";
    }
    FenceCountConcat(b, "\n```\n");
  }

  lemma {:induction false} ExampleBlocksFences(prefix: string, examples: seq<string>)
    requires forall i :: 0 <= i < |examples| ==> !Contains(examples[i], "```")
    requires prefix != [] && prefix[|prefix| - 1] == '\n'
    ensures FenceCount(WithExampleBlocks(prefix, examples)) == FenceCount(prefix) + 2 * |examples|
    ensures WithExampleBlocks(prefix, examples) != []
    ensures WithExampleBlocks(prefix, examples)[|WithExampleBlocks(prefix, examples)| - 1] == '\n'
  {
    if examples != [] {
      var init := examples[..|examples| - 1];
      ExampleBlocksFences(prefix, init);
      ExampleFences(WithExampleBlocks(prefix, init), examples[|examples| - 1]);
    }
  }

  lemma ExamplesFences(prefix: string, t: ToolMeta)
    requires FenceFree(t) && prefix != [] && prefix[|prefix| - 1] == '\n'
    ensures FenceCount(WithExamples(prefix, t)) == FenceCount(prefix) + 2 * |t.examples|
    ensures WithExamples(prefix, t)[|WithExamples(prefix, t)| - 1] == '\n'
  {
    if t.examples != [] {
      var a := prefix + "**Examples**:\n";
      NoBacktickCount("**Examples**:\n");
      FenceCountConcat(prefix, "**Examples**:\n");
      ExampleBlocksFences(a, t.examples);
      NoBacktickCount("\n");
      FenceCountConcat(WithExampleBlocks(a, t.examples), "\n");
    }
  }

  lemma ReturnsFences(prefix: string, t: ToolMeta)
    requires FenceFree(t) && prefix != [] && prefix[|prefix| - 1] == '\n'
    ensures FenceCount(WithReturns(prefix, t)) == FenceCount(prefix)
    ensures WithReturns(prefix, t)[|WithReturns(prefix, t)| - 1] == '\n'
  {
    if HasReturnFormat(t) {
      var v := t.returnFormat.value;
      var a := prefix + "**Returns**: ";
      NoBacktickCount("**Returns**: ");
      FenceCountConcat(prefix, "**Returns**: ");
      FenceCountNone(v);
      FenceCountConcat(a, v);
      NoBacktickCount("\n");
      FenceCountConcat(a + v, "\n");
    }
  }

  /**
   * When no supplied text holds a triple backtick, a tool section has exactly
   * `2 + 2 * len(examples)` fence markers: the schema's pair and one pair per
   * example.
   */
  lemma ToolSectionFences(t: ToolMeta)
    requires FenceFree(t)
    ensures FenceCount(ToolSection(t)) == 2 + 2 * |t.examples|
    ensures FenceCount(ToolSection(t)) % 2 == 0
  {
    var h := WithHeading(t);
    HeadingFences(t);
    var p := WithParameters(h, t);
    ParametersFences(h, t);
    var e := WithExamples(p, t);
    ExamplesFences(p, t);
    var r := WithReturns(e, t);
    ReturnsFences(e, t);
    RuleFences(r);
  }

  /** The closing rule adds no fence. */
  lemma RuleFences(r: string)
    requires r != [] && r[|r| - 1] == '\n'
    ensures FenceCount(r + "\n---\n") == FenceCount(r)
  {
    AppendNoBacktick(r, "\n---\n");
  }

  /** Appending text without backticks adds no fence. */
  lemma AppendNoBacktick(r: string, x: string)
    requires NoBacktick(x)
    ensures FenceCount(r + x) == FenceCount(r)
  {
    NoBacktickCount(x);
    if x != [] {
      assert x[0] != '`';
    }
    FenceCountConcat(r, x);
  }

  // ===========================================================================
  // generate_category_section
  // ===========================================================================

  function CategoryHeading(categoryName: string, toolCount: nat): string
  {
    "## " + categoryName + " Tools (" + NatToString(toolCount) + ")\n\n"
  }

  /** `prefix`, then `f(x)` for each `x` of `xs` in order, appended one at a time. */
  function Appending<T>(prefix: string, xs: seq<T>, f: T -> string): string
  {
    if xs == [] then prefix else Appending(prefix, xs[..|xs| - 1], f) + f(xs[|xs| - 1])
  }

  function MapStrings<T>(xs: seq<T>, f: T -> string): (r: seq<string>)
    ensures |r| == |xs|
  {
    if xs == [] then [] else MapStrings(xs[..|xs| - 1], f) + [f(xs[|xs| - 1])]
  }

  lemma {:induction false} MapStringsIndex<T>(xs: seq<T>, f: T -> string, i: int)
    requires 0 <= i < |xs|
    ensures MapStrings(xs, f)[i] == f(xs[i])
  {
    if i < |xs| - 1 {
      MapStringsIndex(xs[..|xs| - 1], f, i);
    }
  }

  /** Appending one at a time gives the concatenation of all the parts. */
  lemma {:induction false} AppendingIs<T>(prefix: string, xs: seq<T>, f: T -> string)
    ensures Appending(prefix, xs, f) == prefix + Concat(MapStrings(xs, f))
  {
    if xs == [] {
      assert prefix + "" == prefix;
    } else {
      var init, last := xs[..|xs| - 1], xs[|xs| - 1];
      AppendingIs(prefix, init, f);
      ConcatAppend(MapStrings(init, f), f(last));
    }
  }

  /** Reference definition: the heading with the tool count, then each tool's section. */
  function CategorySection(categoryName: string, tools: seq<ToolMeta>): string
  {
    Appending(CategoryHeading(categoryName, |tools|), tools, ToolSection)
  }

  method GenerateCategorySection(categoryName: string, tools: seq<ToolMeta>) returns (section: string)
    ensures section == CategorySection(categoryName, tools)
  {
    section := "## " + categoryName + " Tools (" + NatToString(|tools|) + ")\n\n";
    ghost var heading := section;
    for i := 0 to |tools|
      invariant section == Appending(heading, tools[..i], ToolSection)
    {
      assert tools[..i + 1][..i] == tools[..i];
      var s := GenerateToolSection(tools[i]);
      section := section + s;
    }
    assert tools[..|tools|] == tools;
  }

  /**
   * The category section is `"## " + name + " Tools (" + len(tools) + ")\n\n"`
   * followed by the tools' sections, concatenated in order.
   */
  lemma CategorySectionParts(categoryName: string, tools: seq<ToolMeta>)
    ensures CategorySection(categoryName, tools)
         == "## " + categoryName + " Tools (" + NatToString(|tools|) + ")\n\n" + Concat(MapStrings(tools, ToolSection))
    ensures forall i :: 0 <= i < |tools| ==> MapStrings(tools, ToolSection)[i] == ToolSection(tools[i])
    ensures ParseInt(NatToString(|tools|)) == Some(|tools| as int)
  {
    AppendingIs(CategoryHeading(categoryName, |tools|), tools, ToolSection);
    forall i | 0 <= i < |tools| ensures MapStrings(tools, ToolSection)[i] == ToolSection(tools[i]) {
      MapStringsIndex(tools, ToolSection, i);
    }
    NatRoundTrip(|tools|);
  }

  // ===========================================================================
  // calculate_doc_size
  // ===========================================================================

  /** Bytes UTF-8 uses for one Unicode scalar value. */
  function Utf8Width(c: char): (w: nat)
    ensures 1 <= w <= 4
  {
    if c as int < 0x80 then 1 else if c as int < 0x800 then 2 else if c as int < 0x10000 then 3 else 4
  }

  /** The UTF-8 encoding of one character, as byte values. */
  function EncodeChar(c: char): seq<int>
  {
    var n := c as int;
    if n < 0x80 then [n]
    else if n < 0x800 then [0xC0 + n / 0x40, 0x80 + n % 0x40]
    else if n < 0x10000 then [0xE0 + n / 0x1000, 0x80 + n / 0x40 % 0x40, 0x80 + n % 0x40]
    else [0xF0 + n / 0x40000, 0x80 + n / 0x1000 % 0x40, 0x80 + n / 0x40 % 0x40, 0x80 + n % 0x40]
  }

  /** Reference definition: `content.encode("utf-8")`. */
  function Utf8Encode(s: string): seq<int>
  {
    if s == [] then [] else Utf8Encode(s[..|s| - 1]) + EncodeChar(s[|s| - 1])
  }

  /** `calculate_doc_size`: the number of bytes of the UTF-8 encoding. */
  function DocSize(content: string): (n: nat)
    ensures n == |Utf8Encode(content)|
    ensures |content| <= n <= 4 * |content|
  {
    if content == [] then 0 else DocSize(content[..|content| - 1]) + Utf8Width(content[|content| - 1])
  }

  /** Every encoded value is a byte, and a lead byte's high bits announce how many bytes follow. */
  lemma EncodeCharBytes(c: char)
    ensures |EncodeChar(c)| == Utf8Width(c)
    ensures forall i :: 0 <= i < |EncodeChar(c)| ==> 0 <= EncodeChar(c)[i] < 0x100
    ensures forall i :: 1 <= i < |EncodeChar(c)| ==> 0x80 <= EncodeChar(c)[i] < 0xC0
  {
  }

  /** For ASCII text the size is the number of characters. */
  lemma {:induction false} DocSizeAscii(content: string)
    requires forall i :: 0 <= i < |content| ==> content[i] as int < 0x80
    ensures DocSize(content) == |content|
  {
    if content != [] {
      DocSizeAscii(content[..|content| - 1]);
    }
  }

  /** Sizes add up over concatenation, so a document's size is the sum of its sections'. */
  lemma {:induction false} DocSizeConcat(a: string, b: string)
    ensures DocSize(a + b) == DocSize(a) + DocSize(b)
    decreases |b|
  {
    if b != [] {
      assert (a + b)[..|a + b| - 1] == a + b[..|b| - 1];
      DocSizeConcat(a, b[..|b| - 1]);
    } else {
      assert a + b == a;
    }
  }
}
