/**
 * Tool-name validation, category filtering and the guide's metadata
 * (context_mcp/tools/guide.py). Schemas are kept as rendered strings and tool
 * descriptions as optional strings; the rendered Markdown document itself is
 * not built here.
 */
module Guide {
  import opened Wrappers
  import opened Text
  import opened Sorting
  import opened DocGen

  // ===========================================================================
  // Sets as lists
  // ===========================================================================

  /** `order` lists every element of `s` exactly once. */
  predicate Lists(order: seq<string>, s: set<string>)
  {
    multiset(order) == multiset(s)
  }

  /** Strictly increasing in Python's `str` order. */
  predicate StrictlySorted(r: seq<string>)
  {
    forall i, j :: 0 <= i < j < |r| ==> LexLess(r[i], r[j])
  }

  function NameKey(name: string): Key
  {
    StrKey(name)
  }

  /** Iterating a Python set: every element once, in an order the model does not fix. */
  method Enumerate(s: set<string>) returns (order: seq<string>)
    ensures Lists(order, s)
  {
    order := [];
    var rest := s;
    while rest != {}
      invariant rest <= s
      invariant multiset(order) + multiset(rest) == multiset(s)
      decreases |rest|
    {
      var x :| x in rest;
      order := order + [x];
      assert multiset(rest) == multiset(rest - {x}) + multiset{x};
      rest := rest - {x};
    }
  }

  lemma DuplicateCount(r: seq<string>, i: int, j: int)
    requires 0 <= i < j < |r| && r[i] == r[j]
    ensures multiset(r)[r[i]] >= 2
  {
    assert r == r[..j] + [r[j]] + r[j + 1..];
    assert r[..j][i] == r[i];
    assert multiset(r) == multiset(r[..j]) + multiset{r[j]} + multiset(r[j + 1..]);
  }

  lemma ListsHasNoDuplicates(r: seq<string>, s: set<string>, i: int, j: int)
    requires Lists(r, s) && 0 <= i < j < |r|
    ensures r[i] != r[j]
  {
    if r[i] == r[j] {
      DuplicateCount(r, i, j);
    }
  }

  /** `sorted(s)` for a set of names. */
  method SortedNames(s: set<string>) returns (r: seq<string>)
    ensures Lists(r, s) && StrictlySorted(r)
    ensures |r| == |s|
    ensures forall x :: x in r <==> x in s
  {
    var order := Enumerate(s);
    r := SortBy(order, NameKey, false);
    SortBySpec(order, NameKey, false);
    forall i, j | 0 <= i < j < |r| ensures LexLess(r[i], r[j]) {
      ListsHasNoDuplicates(r, s, i, j);
      LexLessTotal(r[i], r[j]);
    }
    assert |r| == |multiset(r)|;
    forall x ensures x in r <==> x in s {
      assert x in r <==> x in multiset(r);
    }
  }

  /** No two names are each less than the other. */
  lemma LexLessAsymmetric(x: string, y: string)
    ensures !(LexLess(x, y) && LexLess(y, x))
  {
    if LexLess(x, y) && LexLess(y, x) {
      LexLessTransitive(x, y, x);
      LexLessIrreflexive(x);
    }
  }

  /** The head of a strictly sorted list is its least element. */
  lemma SortedHead(a: seq<string>, x: string)
    requires StrictlySorted(a) && x in a
    ensures x == a[0] || LexLess(a[0], x)
  {
    var k :| 0 <= k < |a| && a[k] == x;
    if k > 0 {
      assert LexLess(a[0], a[k]);
    }
  }

  /** The tail of a strictly sorted list holds every element but the head. */
  lemma SortedTail(a: seq<string>, x: string)
    requires StrictlySorted(a) && a != []
    ensures x in a[1..] <==> x in a && x != a[0]
  {
    if x in a[1..] {
      var k :| 0 <= k < |a[1..]| && a[1..][k] == x;
      assert LexLess(a[0], a[k + 1]);
      LexLessIrreflexive(a[0]);
    }
    if x in a && x != a[0] {
      var k :| 0 <= k < |a| && a[k] == x;
      assert a[1..][k - 1] == x;
    }
  }

  /** Two strictly sorted lists of the same set are equal, so `sorted(s)` is determined by its contracts. */
  lemma {:induction false} SortedListsUnique(a: seq<string>, b: seq<string>)
    requires StrictlySorted(a) && StrictlySorted(b)
    requires forall x :: x in a <==> x in b
    ensures a == b
    decreases |a|
  {
    if a != [] {
      assert a[0] in a;
    }
    if b != [] {
      assert b[0] in b;
    }
    if a != [] && b != [] {
      SortedHead(a, b[0]);
      SortedHead(b, a[0]);
      LexLessAsymmetric(a[0], b[0]);
      assert a[0] == b[0];
      forall x ensures x in a[1..] <==> x in b[1..] {
        SortedTail(a, x);
        SortedTail(b, x);
      }
      SortedListsUnique(a[1..], b[1..]);
      assert a == [a[0]] + a[1..] && b == [b[0]] + b[1..];
    }
  }

  // ===========================================================================
  // _validate_and_filter_tools
  // ===========================================================================

  datatype Validation = Validation(toInclude: set<string>, warnings: seq<string>, invalidNames: seq<string>)

  /** A requested name as it is kept: itself if valid, else its `mcp_` form if that is valid, else itself. */
  function Normalize(name: string, valid: set<string>): string
  {
    if name in valid then name
    else if "mcp_" + name in valid then "mcp_" + name
    else name
  }

  /** The set of normalised requested names; duplicates collapse. */
  function Normalized(names: seq<string>, valid: set<string>): set<string>
  {
    if names == [] then {}
    else Normalized(names[..|names| - 1], valid) + {Normalize(names[|names| - 1], valid)}
  }

  function Quote(name: string): string
  {
    "'" + name + "'"
  }

  /** The warning, for the invalid names in the order the set was iterated and the sorted valid names. */
  function Warning(invalidOrder: seq<string>, available: seq<string>): string
  {
    (if |invalidOrder| > 1 then "Tools" else "Tool") + " " + Join(", ", MapStrings(invalidOrder, Quote))
    + " not found. Available tools: " + Join(", ", available)
  }

  method ValidateAndFilterTools(toolNames: Option<seq<string>>, schemas: map<string, string>) returns (v: Validation)
    ensures toolNames.None? ==> v == Validation(schemas.Keys, [], [])
    ensures v.toInclude <= schemas.Keys
    ensures toolNames.Some? ==> v.toInclude == Normalized(toolNames.value, schemas.Keys) * schemas.Keys
    ensures toolNames.Some? ==>
      StrictlySorted(v.invalidNames) && Lists(v.invalidNames, Normalized(toolNames.value, schemas.Keys) - schemas.Keys)
    ensures |v.warnings| <= 1
    ensures |v.warnings| == 1 <==> v.invalidNames != []
    ensures |v.warnings| == 1 ==>
      exists order, available :: Lists(order, Normalized(toolNames.value, schemas.Keys) - schemas.Keys)
        && Lists(available, schemas.Keys) && StrictlySorted(available)
        && v.warnings[0] == Warning(order, available)
  {
    if toolNames.None? {
      return Validation(schemas.Keys, [], []);
    }
    var names := toolNames.value;
    var valid := schemas.Keys;

    var normalized := NormalizeNames(names, valid);

    var invalid := normalized - valid;
    var warnings, invalidNames := ReportInvalid(invalid, valid);
    v := Validation(normalized * valid, warnings, invalidNames);
  }

  /** The loop that fills `normalized_requested`. */
  method NormalizeNames(names: seq<string>, valid: set<string>) returns (normalized: set<string>)
    ensures normalized == Normalized(names, valid)
  {
    normalized := {};
    for i := 0 to |names|
      invariant normalized == Normalized(names[..i], valid)
    {
      assert names[..i + 1][..i] == names[..i];
      var name := names[i];
      if name in valid {
        normalized := normalized + {name};
      } else if "mcp_" + name in valid {
        normalized := normalized + {"mcp_" + name};
      } else {
        normalized := normalized + {name};
      }
    }
    assert names[..|names|] == names;
  }

  /** The sorted invalid names and the one warning, or nothing when every name is valid. */
  method ReportInvalid(invalid: set<string>, valid: set<string>) returns (warnings: seq<string>, invalidNames: seq<string>)
    ensures StrictlySorted(invalidNames) && Lists(invalidNames, invalid)
    ensures |warnings| <= 1
    ensures |warnings| == 1 <==> invalid != {}
    ensures invalidNames != [] <==> invalid != {}
    ensures |warnings| == 1 ==>
      exists order, available :: Lists(order, invalid) && Lists(available, valid) && StrictlySorted(available)
        && warnings[0] == Warning(order, available)
  {
    warnings := [];
    invalidNames := [];
    if invalid != {} {
      invalidNames := SortedNames(invalid);
      var toolWord := if |invalid| > 1 then "Tools" else "Tool";
      var order := Enumerate(invalid);
      assert |order| == |invalid| by {
        assert |order| == |multiset(order)|;
      }
      var invalidQuoted := Join(", ", MapStrings(order, Quote));
      var available := SortedNames(valid);
      warnings := [toolWord + " " + invalidQuoted + " not found. Available tools: " + Join(", ", available)];
      assert warnings[0] == Warning(order, available);
    } else {
      assert Lists([], invalid);
    }
  }

  /** The three cases of normalisation, and when the kept name is valid. */
  lemma NormalizeCases(name: string, valid: set<string>)
    ensures name in valid ==> Normalize(name, valid) == name
    ensures name !in valid && "mcp_" + name in valid ==> Normalize(name, valid) == "mcp_" + name
    ensures name !in valid && "mcp_" + name !in valid ==> Normalize(name, valid) == name
    ensures Normalize(name, valid) in valid <==> name in valid || "mcp_" + name in valid
  {
  }

  /** A name is in the normalised set iff some requested name normalises to it. */
  lemma {:induction false} NormalizedMembers(names: seq<string>, valid: set<string>, x: string)
    ensures x in Normalized(names, valid) <==> exists i :: 0 <= i < |names| && Normalize(names[i], valid) == x
  {
    if names != [] {
      var init := names[..|names| - 1];
      NormalizedMembers(init, valid, x);
      if exists i :: 0 <= i < |init| && Normalize(init[i], valid) == x {
        var i :| 0 <= i < |init| && Normalize(init[i], valid) == x;
        assert names[i] == init[i];
      }
      if exists i :: 0 <= i < |names| && Normalize(names[i], valid) == x {
        var i :| 0 <= i < |names| && Normalize(names[i], valid) == x;
        if i < |init| {
          assert init[i] == names[i];
        }
      }
    }
  }

  /** Repeating a request changes nothing: the normalised set only depends on which names were asked for. */
  lemma NormalizedDuplicates(names: seq<string>, name: string, valid: set<string>)
    requires name in names
    ensures Normalized(names + [name], valid) == Normalized(names, valid)
  {
    var i :| 0 <= i < |names| && names[i] == name;
    NormalizedMembers(names, valid, Normalize(name, valid));
    assert (names + [name])[..|names|] == names;
  }

  /** An empty request gives nothing to include, no invalid name and no warning. */
  lemma EmptyRequest(valid: set<string>)
    ensures Normalized([], valid) * valid == {}
    ensures Normalized([], valid) - valid == {}
    ensures forall order :: Lists(order, Normalized([], valid) - valid) ==> order == []
  {
    forall order | Lists(order, Normalized([], valid) - valid) ensures order == [] {
      assert |order| == |multiset(order)|;
    }
  }

  /** The warning names its subject in the singular for one invalid name and in the plural otherwise. */
  lemma WarningWord(order: seq<string>, available: seq<string>)
    ensures |order| > 1 ==> Warning(order, available)[..6] == "Tools "
    ensures |order| <= 1 ==> Warning(order, available)[..5] == "Tool "
  {
    var rest := Join(", ", MapStrings(order, Quote)) + " not found. Available tools: " + Join(", ", available);
    var w := (if |order| > 1 then "Tools" else "Tool") + " ";
    assert Warning(order, available) == w + rest;
    assert (w + rest)[..|w|] == w;
  }

  // ===========================================================================
  // _build_tools_metadata
  // ===========================================================================

  /** `tool.description` if the tool exists and its description is truthy, else `"[No description]"`. */
  function Describe(name: string, descriptions: map<string, Option<string>>): (d: string)
    ensures d != ""
    ensures name in descriptions && descriptions[name].Some? && descriptions[name].value != "" ==> d == descriptions[name].value
    ensures !(name in descriptions && descriptions[name].Some? && descriptions[name].value != "") ==> d == "[No description]"
  {
    if name in descriptions && descriptions[name].Some? && descriptions[name].value != "" then descriptions[name].value
    else "[No description]"
  }

  function MetaFor(name: string, schemas: map<string, string>, descriptions: map<string, Option<string>>): ToolMeta
    requires name in schemas
  {
    ToolMeta(RemovePrefix(name, "mcp_"), Describe(name, descriptions), schemas[name], [], None)
  }

  /** The category's listed names that are to be included, in list order. */
  function IncludedNames(toolList: seq<string>, toInclude: set<string>): seq<string>
  {
    if toolList == [] then []
    else IncludedNames(toolList[..|toolList| - 1], toInclude)
         + (if toolList[|toolList| - 1] in toInclude then [toolList[|toolList| - 1]] else [])
  }

  function CategoryTools(toolList: seq<string>, toInclude: set<string>, schemas: map<string, string>,
                         descriptions: map<string, Option<string>>): seq<ToolMeta>
    requires toInclude <= schemas.Keys
  {
    if toolList == [] then []
    else CategoryTools(toolList[..|toolList| - 1], toInclude, schemas, descriptions)
         + (if toolList[|toolList| - 1] in toInclude then [MetaFor(toolList[|toolList| - 1], schemas, descriptions)] else [])
  }

  /** Reference definition: each category in order, kept only when some of its tools is included. */
  function Metadata(toInclude: set<string>, categories: seq<(string, seq<string>)>, schemas: map<string, string>,
                    descriptions: map<string, Option<string>>): seq<(string, seq<ToolMeta>)>
    requires toInclude <= schemas.Keys
  {
    if categories == [] then []
    else
      var c := categories[|categories| - 1];
      var tools := CategoryTools(c.1, toInclude, schemas, descriptions);
      Metadata(toInclude, categories[..|categories| - 1], schemas, descriptions) + (if tools != [] then [(c.0, tools)] else [])
  }

  method BuildToolsMetadata(toInclude: set<string>, categories: seq<(string, seq<string>)>, schemas: map<string, string>,
                            descriptions: map<string, Option<string>>) returns (byCategory: seq<(string, seq<ToolMeta>)>)
    requires toInclude <= schemas.Keys
    ensures byCategory == Metadata(toInclude, categories, schemas, descriptions)
  {
    byCategory := [];
    for i := 0 to |categories|
      invariant byCategory == Metadata(toInclude, categories[..i], schemas, descriptions)
    {
      assert categories[..i + 1][..i] == categories[..i];
      var (category, toolList) := categories[i];
      var categoryTools: seq<ToolMeta> := [];
      for j := 0 to |toolList|
        invariant categoryTools == CategoryTools(toolList[..j], toInclude, schemas, descriptions)
      {
        assert toolList[..j + 1][..j] == toolList[..j];
        var toolName := toolList[j];
        if toolName in toInclude {
          var displayName := RemovePrefix(toolName, "mcp_");
          var description := Describe(toolName, descriptions);
          categoryTools := categoryTools + [ToolMeta(displayName, description, schemas[toolName], [], None)];
        }
      }
      assert toolList[..|toolList|] == toolList;
      if categoryTools != [] {
        byCategory := byCategory + [(category, categoryTools)];
      }
    }
    assert categories[..|categories|] == categories;
  }

  /** A name is listed for inclusion iff the category lists it and it is included. */
  lemma {:induction false} IncludedNamesIff(toolList: seq<string>, toInclude: set<string>, x: string)
    ensures x in IncludedNames(toolList, toInclude) <==> x in toolList && x in toInclude
  {
    if toolList != [] {
      var init := toolList[..|toolList| - 1];
      IncludedNamesIff(init, toInclude, x);
      assert toolList == init + [toolList[|toolList| - 1]];
    }
  }

  /** The category's tools are the metadata of its included names, one each and in list order. */
  lemma {:induction false} CategoryToolsOrder(toolList: seq<string>, toInclude: set<string>, schemas: map<string, string>,
                                              descriptions: map<string, Option<string>>)
    requires toInclude <= schemas.Keys
    ensures |CategoryTools(toolList, toInclude, schemas, descriptions)| == |IncludedNames(toolList, toInclude)|
    ensures forall k :: 0 <= k < |IncludedNames(toolList, toInclude)| ==>
      IncludedNames(toolList, toInclude)[k] in schemas
      && CategoryTools(toolList, toInclude, schemas, descriptions)[k] == MetaFor(IncludedNames(toolList, toInclude)[k], schemas, descriptions)
  {
    if toolList != [] {
      CategoryToolsOrder(toolList[..|toolList| - 1], toInclude, schemas, descriptions);
    }
  }

  /** Every entry's display name has the `mcp_` prefix removed, and it carries no examples and no return format. */
  lemma MetaForProps(name: string, schemas: map<string, string>, descriptions: map<string, Option<string>>)
    requires name in schemas
    ensures StartsWith(name, "mcp_") ==> "mcp_" + MetaFor(name, schemas, descriptions).name == name
    ensures !StartsWith(name, "mcp_") ==> MetaFor(name, schemas, descriptions).name == name
    ensures MetaFor(name, schemas, descriptions).description != ""
    ensures MetaFor(name, schemas, descriptions).schemaJson == schemas[name]
    ensures MetaFor(name, schemas, descriptions).examples == [] && MetaFor(name, schemas, descriptions).returnFormat == None
  {
  }

  /**
   * A category is in the result iff it has an included tool; its entry then
   * holds exactly that category's tools.
   */
  lemma {:induction false} MetadataEntries(toInclude: set<string>, categories: seq<(string, seq<string>)>,
                                           schemas: map<string, string>, descriptions: map<string, Option<string>>)
    requires toInclude <= schemas.Keys
    ensures forall e :: e in Metadata(toInclude, categories, schemas, descriptions) ==>
      e.1 != [] && exists i :: 0 <= i < |categories| && categories[i].0 == e.0
                               && e.1 == CategoryTools(categories[i].1, toInclude, schemas, descriptions)
    ensures forall i :: 0 <= i < |categories| && CategoryTools(categories[i].1, toInclude, schemas, descriptions) != [] ==>
      (categories[i].0, CategoryTools(categories[i].1, toInclude, schemas, descriptions)) in Metadata(toInclude, categories, schemas, descriptions)
  {
    if categories != [] {
      var init := categories[..|categories| - 1];
      MetadataEntries(toInclude, init, schemas, descriptions);
      var r := Metadata(toInclude, categories, schemas, descriptions);
      forall e | e in r
        ensures e.1 != [] && exists i :: 0 <= i < |categories| && categories[i].0 == e.0
                                        && e.1 == CategoryTools(categories[i].1, toInclude, schemas, descriptions)
      {
        if e in Metadata(toInclude, init, schemas, descriptions) {
          var i :| 0 <= i < |init| && init[i].0 == e.0 && e.1 == CategoryTools(init[i].1, toInclude, schemas, descriptions);
          assert categories[i] == init[i];
        } else {
          assert categories[|categories| - 1].0 == e.0;
        }
      }
      forall i | 0 <= i < |categories| && CategoryTools(categories[i].1, toInclude, schemas, descriptions) != []
        ensures (categories[i].0, CategoryTools(categories[i].1, toInclude, schemas, descriptions)) in r
      {
        if i < |init| {
          assert init[i] == categories[i];
        }
      }
    }
  }

  // ===========================================================================
  // filtered_count in get_tool_usage_guide
  // ===========================================================================

  /** `sum(len(tools) for tools in tools_by_category.values())`. */
  function TotalIncluded(byCategory: seq<(string, seq<ToolMeta>)>): nat
  {
    if byCategory == [] then 0 else TotalIncluded(byCategory[..|byCategory| - 1]) + |byCategory[|byCategory| - 1].1|
  }

  /** The number of included names each category lists, summed over the categories. */
  function ListedIncluded(categories: seq<(string, seq<string>)>, toInclude: set<string>): nat
  {
    if categories == [] then 0
    else ListedIncluded(categories[..|categories| - 1], toInclude) + |IncludedNames(categories[|categories| - 1].1, toInclude)|
  }

  /** `filtered_count` counts every included name once per category that lists it. */
  lemma {:induction false} TotalIncludedCounts(toInclude: set<string>, categories: seq<(string, seq<string>)>,
                                               schemas: map<string, string>, descriptions: map<string, Option<string>>)
    requires toInclude <= schemas.Keys
    ensures TotalIncluded(Metadata(toInclude, categories, schemas, descriptions)) == ListedIncluded(categories, toInclude)
  {
    if categories != [] {
      var init := categories[..|categories| - 1];
      var c := categories[|categories| - 1];
      TotalIncludedCounts(toInclude, init, schemas, descriptions);
      CategoryToolsOrder(c.1, toInclude, schemas, descriptions);
      var tools := CategoryTools(c.1, toInclude, schemas, descriptions);
      var rest := Metadata(toInclude, init, schemas, descriptions);
      if tools != [] {
        assert (rest + [(c.0, tools)])[..|rest|] == rest;
      } else {
        assert rest + [] == rest;
      }
    }
  }

  /** Every name of the list, as a set. */
  function NameSet(names: seq<string>): set<string>
  {
    set x | x in names
  }

  predicate Distinct(names: seq<string>)
  {
    forall i, j :: 0 <= i < j < |names| ==> names[i] != names[j]
  }

  /** With no name listed twice, a category lists as many included names as its names that are included. */
  lemma {:induction false} IncludedNamesCount(toolList: seq<string>, toInclude: set<string>)
    requires Distinct(toolList)
    ensures |IncludedNames(toolList, toInclude)| == |NameSet(toolList) * toInclude|
  {
    if toolList != [] {
      var init := toolList[..|toolList| - 1];
      var last := toolList[|toolList| - 1];
      IncludedNamesCount(init, toInclude);
      assert NameSet(toolList) == NameSet(init) + {last};
      assert last !in NameSet(init);
      if last in toInclude {
        assert NameSet(toolList) * toInclude == (NameSet(init) * toInclude) + {last};
      } else {
        assert NameSet(toolList) * toInclude == NameSet(init) * toInclude;
      }
    }
  }

  /** Every name listed by some category. */
  function Listed(categories: seq<(string, seq<string>)>): set<string>
  {
    if categories == [] then {} else Listed(categories[..|categories| - 1]) + NameSet(categories[|categories| - 1].1)
  }

  /** No name is listed twice, within one category or across two. */
  predicate CategoriesDisjoint(categories: seq<(string, seq<string>)>)
  {
    (forall i :: 0 <= i < |categories| ==> Distinct(categories[i].1))
    && (forall i, j :: 0 <= i < j < |categories| ==> NameSet(categories[i].1) * NameSet(categories[j].1) == {})
  }

  lemma {:induction false} ListedIncludedDisjoint(categories: seq<(string, seq<string>)>, toInclude: set<string>)
    requires CategoriesDisjoint(categories)
    ensures ListedIncluded(categories, toInclude) == |Listed(categories) * toInclude|
  {
    if categories != [] {
      var init := categories[..|categories| - 1];
      var c := categories[|categories| - 1];
      assert CategoriesDisjoint(init) by {
        forall i | 0 <= i < |init| ensures Distinct(init[i].1) {
          assert init[i] == categories[i];
        }
        forall i, j | 0 <= i < j < |init| ensures NameSet(init[i].1) * NameSet(init[j].1) == {} {
          assert init[i] == categories[i] && init[j] == categories[j];
        }
      }
      ListedIncludedDisjoint(init, toInclude);
      assert Distinct(categories[|categories| - 1].1);
      IncludedNamesCount(c.1, toInclude);
      ListedDisjointFromLast(categories);
      var a, b := Listed(init) * toInclude, NameSet(c.1) * toInclude;
      assert Listed(categories) * toInclude == a + b;
      assert a * b == {};
    }
  }

  lemma {:induction false} ListedDisjointFromLast(categories: seq<(string, seq<string>)>)
    requires |categories| > 0 && CategoriesDisjoint(categories)
    ensures Listed(categories[..|categories| - 1]) * NameSet(categories[|categories| - 1].1) == {}
  {
    var init := categories[..|categories| - 1];
    var last := NameSet(categories[|categories| - 1].1);
    forall x | x in last ensures x !in Listed(init) {
      ListedFrom(init, x);
      forall i | 0 <= i < |init| ensures x !in NameSet(init[i].1) {
        var j := |categories| - 1;
        assert init[i] == categories[i];
        assert NameSet(categories[i].1) * NameSet(categories[j].1) == {};
        assert x !in NameSet(categories[i].1) * NameSet(categories[j].1);
      }
    }
  }

  lemma {:induction false} ListedFrom(categories: seq<(string, seq<string>)>, x: string)
    ensures x in Listed(categories) <==> exists i :: 0 <= i < |categories| && x in NameSet(categories[i].1)
  {
    if categories != [] {
      var init := categories[..|categories| - 1];
      ListedFrom(init, x);
      if exists i :: 0 <= i < |init| && x in NameSet(init[i].1) {
        var i :| 0 <= i < |init| && x in NameSet(init[i].1);
        assert categories[i] == init[i];
      }
      if exists i :: 0 <= i < |categories| && x in NameSet(categories[i].1) {
        var i :| 0 <= i < |categories| && x in NameSet(categories[i].1);
        if i < |init| {
          assert init[i] == categories[i];
        }
      }
    }
  }

  /**
   * When no tool is listed twice, `filtered_count` is the number of included
   * tools that some category lists.
   */
  lemma FilteredCountDisjoint(toInclude: set<string>, categories: seq<(string, seq<string>)>,
                              schemas: map<string, string>, descriptions: map<string, Option<string>>)
    requires toInclude <= schemas.Keys && CategoriesDisjoint(categories)
    ensures TotalIncluded(Metadata(toInclude, categories, schemas, descriptions)) == |Listed(categories) * toInclude|
  {
    TotalIncludedCounts(toInclude, categories, schemas, descriptions);
    ListedIncludedDisjoint(categories, toInclude);
  }

  // ===========================================================================
  // get_tool_usage_guide
  // ===========================================================================

  /** The table of `categorize_tools`. */
  const ToolCategories: seq<(string, seq<string>)> := [
    ("navigation", ["list_directory", "show_tree", "read_project_context"]),
    ("search", ["search_in_file", "search_in_files", "find_files_by_name", "find_recently_modified_files"]),
    ("read", ["read_entire_file", "read_file_lines", "read_file_tail", "read_files"]),
    ("guide", ["get_tool_usage_guide"])
  ]

  /**
   * The response without its Markdown content, generation time and size:
   * `invalidNames` and `warnings` are `None` when the key is left out.
   */
  datatype GuideReport = GuideReport(byCategory: seq<(string, seq<ToolMeta>)>, totalTools: nat, filteredCount: nat,
                                     filteredTools: string, invalidNames: Option<seq<string>>, warnings: Option<seq<string>>)

  method GetToolUsageGuide(toolNames: Option<seq<string>>, schemas: map<string, string>,
                           descriptions: map<string, Option<string>>) returns (r: GuideReport)
    ensures r.totalTools == |schemas.Keys|
    ensures exists toInclude :: (toInclude <= schemas.Keys
      && r.byCategory == Metadata(toInclude, ToolCategories, schemas, descriptions)
      && r.filteredCount == |Listed(ToolCategories) * toInclude|
      && (toolNames.None? ==> toInclude == schemas.Keys && r.filteredTools == "")
      && (toolNames.Some? ==> toInclude == Normalized(toolNames.value, schemas.Keys) * schemas.Keys))
    ensures r.filteredCount == TotalIncluded(r.byCategory)
    ensures r.invalidNames.Some? ==> r.invalidNames.value != [] && toolNames.Some?
    ensures r.warnings.Some? <==> r.invalidNames.Some?
    ensures toolNames.None? ==> r.invalidNames.None? && r.warnings.None?
    ensures toolNames.Some? ==>
      exists names :: Lists(names, Normalized(toolNames.value, schemas.Keys) * schemas.Keys) && StrictlySorted(names)
                      && r.filteredTools == Join(", ", names)
    ensures toolNames.Some? ==> (r.invalidNames.Some? <==> Normalized(toolNames.value, schemas.Keys) - schemas.Keys != {})
    ensures toolNames.Some? && r.invalidNames.Some? ==>
      StrictlySorted(r.invalidNames.value) && Lists(r.invalidNames.value, Normalized(toolNames.value, schemas.Keys) - schemas.Keys)
  {
    var v := ValidateAndFilterTools(toolNames, schemas);
    var byCategory := BuildToolsMetadata(v.toInclude, ToolCategories, schemas, descriptions);
    var filteredTools := "";
    if toolNames.Some? {
      var sortedInclude := SortedNames(v.toInclude);
      filteredTools := Join(", ", sortedInclude);
    }
    var totalIncluded := TotalIncluded(byCategory);
    ToolCategoriesDisjoint();
    FilteredCountDisjoint(v.toInclude, ToolCategories, schemas, descriptions);
    r := GuideReport(byCategory, |schemas|, totalIncluded, filteredTools,
                     if v.invalidNames != [] then Some(v.invalidNames) else None,
                     if v.warnings != [] then Some(v.warnings) else None);
  }

  lemma ToolCategoriesDisjoint()
    ensures CategoriesDisjoint(ToolCategories)
  {
    var c := ToolCategories;
    forall i | 0 <= i < |c| ensures Distinct(c[i].1) {
    }
    forall i, j | 0 <= i < j < |c| ensures NameSet(c[i].1) * NameSet(c[j].1) == {} {
    }
  }
}
