/**
 * Content search and file finding (context_mcp/tools/search.py).
 *
 * `search_in_file` scans one file's lines for a literal query.
 * `search_in_files` tries three tiers in order: ripgrep, then find + grep on
 * POSIX hosts, then an in-process scan that runs only when nothing matched and
 * nothing timed out. `find_files_by_name` and `find_recently_modified_files`
 * try fd first and fall back to a directory walk; recency results are sorted
 * most recent first.
 *
 * External programs, the clock and the file system are inputs: every tool run
 * is a `ToolRun` value, every clock reading an `elapsed` value indexed by the
 * loop step that takes it, and path resolution a function
 * `string -> Option<string>` that is `None` where `relative_to` fails.
 */
module Search {
  import opened Wrappers
  import opened Text
  import Sorting

  // ===========================================================================
  // Records
  // ===========================================================================

  /** A hit of `search_in_file`: `{"line_number", "line_content"}`. */
  datatype LineMatch = LineMatch(lineNumber: int, lineContent: string)

  datatype FileSearchResult = FileSearchResult(matches: seq<LineMatch>, totalMatches: int)

  /** A hit of `search_in_files`: `{"file_path", "line_number", "line_content"}`. */
  datatype Match = Match(filePath: string, lineNumber: int, lineContent: string)

  datatype SearchResult = SearchResult(matches: seq<Match>, totalMatches: int, timedOut: bool)

  /** The errors the search functions raise after path validation. */
  datatype SearchError =
    | PathNotFound      // FileNotFoundError("PATH_NOT_FOUND: ...")
    | ToolRunFailed     // an error from running ripgrep other than its timeout, which nothing catches

  /**
   * The outcome of one `subprocess.run`: it returned, it raised
   * `TimeoutExpired`, it raised `FileNotFoundError`, or it raised another `OSError`.
   */
  datatype ToolRun = Completed(returnCode: int, stdout: string) | TimedOut | NotFound | OSFailure

  function Opt<T>(o: Option<T>): seq<T>
  {
    if o.Some? then [o.value] else []
  }

  // ===========================================================================
  // search_in_file, literal mode
  // ===========================================================================

  /** The lines a text-mode file iteration yields, each with `rstrip("\n")` applied. */
  function FileLines(content: string): seq<string>
  {
    SplitLines(content, FileIteration)
  }

  /** Reference definition: the lines containing `query`, numbered from `first`. */
  function LiteralMatches(query: string, lines: seq<string>, first: int): seq<LineMatch>
  {
    if lines == [] then []
    else LiteralMatches(query, lines[..|lines| - 1], first)
         + (if Contains(lines[|lines| - 1], query)
            then [LineMatch(first + |lines| - 1, lines[|lines| - 1])] else [])
  }

  /** Every reported match names a line in range that contains the query, with that line's text. */
  lemma {:induction false} LiteralMatchesSound(query: string, lines: seq<string>, first: int)
    ensures forall m :: m in LiteralMatches(query, lines, first) ==>
      first <= m.lineNumber < first + |lines| && m.lineContent == lines[m.lineNumber - first]
      && Contains(m.lineContent, query)
  {
    if lines != [] {
      var init := lines[..|lines| - 1];
      LiteralMatchesSound(query, init, first);
      forall m | m in LiteralMatches(query, init, first)
        ensures m.lineContent == lines[m.lineNumber - first]
      {
        assert init[m.lineNumber - first] == lines[m.lineNumber - first];
      }
    }
  }

  /** Matches are reported in strictly increasing line order. */
  lemma {:induction false} LiteralMatchesIncreasing(query: string, lines: seq<string>, first: int)
    ensures forall i, j :: 0 <= i < j < |LiteralMatches(query, lines, first)| ==>
      LiteralMatches(query, lines, first)[i].lineNumber < LiteralMatches(query, lines, first)[j].lineNumber
  {
    if lines != [] {
      var init := lines[..|lines| - 1];
      LiteralMatchesIncreasing(query, init, first);
      LiteralMatchesSound(query, init, first);
      var prev := LiteralMatches(query, init, first);
      var r := LiteralMatches(query, lines, first);
      forall i, j | 0 <= i < j < |r| ensures r[i].lineNumber < r[j].lineNumber {
        assert r[i] == prev[i];
        if j < |prev| {
          assert r[j] == prev[j];
        } else {
          assert prev[i] in prev;
        }
      }
    }
  }

  /** Every line containing the query is reported. */
  lemma {:induction false} LiteralMatchesComplete(query: string, lines: seq<string>, first: int)
    ensures forall k :: 0 <= k < |lines| && Contains(lines[k], query) ==>
      LineMatch(first + k, lines[k]) in LiteralMatches(query, lines, first)
  {
    if lines != [] {
      var init := lines[..|lines| - 1];
      LiteralMatchesComplete(query, init, first);
      forall k | 0 <= k < |init| ensures init[k] == lines[k] { }
    }
  }

  /**
   * `search_in_file` with `use_regex=False`, on the text of an existing,
   * readable text file: every line containing `query` once, in line order,
   * numbered from 1, and `total_matches` is the number of matches.
   */
  method SearchInFile(query: string, content: string) returns (r: FileSearchResult)
    ensures r.matches == LiteralMatches(query, FileLines(content), 1)
    ensures r.totalMatches == |r.matches|
    ensures forall m :: m in r.matches ==>
      1 <= m.lineNumber <= |FileLines(content)|
      && m.lineContent == FileLines(content)[m.lineNumber - 1]
      && Contains(m.lineContent, query)
    ensures forall i, j :: 0 <= i < j < |r.matches| ==> r.matches[i].lineNumber < r.matches[j].lineNumber
    ensures forall k :: 0 <= k < |FileLines(content)| && Contains(FileLines(content)[k], query) ==>
      LineMatch(k + 1, FileLines(content)[k]) in r.matches
  {
    var lines := FileLines(content);
    var matches := MatchLines(query, lines);
    LiteralMatchesSound(query, lines, 1);
    LiteralMatchesIncreasing(query, lines, 1);
    LiteralMatchesComplete(query, lines, 1);
    r := FileSearchResult(matches, |matches|);
  }

  /** The loop of `search_in_file` over `enumerate(f, 1)`. */
  method MatchLines(query: string, lines: seq<string>) returns (matches: seq<LineMatch>)
    ensures matches == LiteralMatches(query, lines, 1)
  {
    matches := [];
    for lineNum := 1 to |lines| + 1
      invariant matches == LiteralMatches(query, lines[..lineNum - 1], 1)
    {
      var line := lines[lineNum - 1];
      assert lines[..lineNum] == lines[..lineNum - 1] + [line];
      if Contains(line, query) {
        matches := matches + [LineMatch(lineNum, line)];
      }
    }
    assert lines[..|lines|] == lines;
  }

  // ===========================================================================
  // Parsing ripgrep's "path:line:content" output
  // ===========================================================================

  /**
   * A colon that separates fields: any colon except the one of a drive prefix,
   * i.e. a colon at index 1 followed by a backslash or a slash.
   */
  predicate IsFieldColon(line: string, i: int)
    requires 0 <= i < |line|
  {
    line[i] == ':' && !(i == 1 && |line| > 2 && (line[2] == '\\' || line[2] == '/'))
  }

  /** The field colons among the first `n` characters, in increasing order. */
  function ColonsBelow(line: string, n: nat): (r: seq<nat>)
    requires n <= |line|
    ensures forall k :: 0 <= k < |r| ==> r[k] < n && IsFieldColon(line, r[k])
    ensures forall k, l :: 0 <= k < l < |r| ==> r[k] < r[l]
    ensures forall i :: 0 <= i < n && IsFieldColon(line, i) ==> i in r
  {
    if n == 0 then [] else ColonsBelow(line, n - 1) + (if IsFieldColon(line, n - 1) then [n - 1] else [])
  }

  function ColonPositions(line: string): seq<nat>
  {
    ColonsBelow(line, |line|)
  }

  /** The `colon_positions` loop: the field colons of `line`, left to right. */
  method FindColonPositions(line: string) returns (positions: seq<nat>)
    ensures positions == ColonPositions(line)
    ensures forall k :: 0 <= k < |positions| ==> positions[k] < |line| && IsFieldColon(line, positions[k])
    ensures forall k, l :: 0 <= k < l < |positions| ==> positions[k] < positions[l]
    ensures forall i :: 0 <= i < |line| && IsFieldColon(line, i) ==> i in positions
  {
    positions := [];
    for i := 0 to |line|
      invariant positions == ColonsBelow(line, i)
    {
      if line[i] == ':' {
        if i == 1 && |line| > 2 && (line[i + 1] == '\\' || line[i + 1] == '/') {
          continue;
        }
        positions := positions + [i];
      }
    }
  }

  /** The three fields of a ripgrep output line, still as text. */
  datatype RgFields = RgFields(file: string, lineNumber: string, content: string)

  /** Cuts a line at its first two field colons; `None` when it has fewer than two. */
  function SplitRgLine(line: string): Option<RgFields>
  {
    var pos := ColonPositions(line);
    if |pos| < 2 then None
    else Some(RgFields(line[..pos[0]], line[pos[0] + 1..pos[1]], line[pos[1] + 1..]))
  }

  /**
   * One line of ripgrep output: blank lines and lines containing a non-empty
   * `excludeQuery` are dropped; a line with fewer than two field colons, a
   * line-number field that `int()` rejects, or a path that `relative_to`
   * rejects is skipped.
   */
  function ParseRgLine(line: string, excludeQuery: string, rgRelative: string -> Option<string>): Option<Match>
  {
    if IsBlank(line) then None
    else if excludeQuery != "" && Contains(line, excludeQuery) then None
    else match SplitRgLine(line)
      case None => None
      case Some(f) =>
        var rel, n := rgRelative(f.file), ParseInt(f.lineNumber);
        if rel.Some? && n.Some? then Some(Match(Slashes(rel.value), n.value, f.content)) else None
  }

  /** Reference definition of the matches parsed from ripgrep's output lines. */
  function RgMatches(lines: seq<string>, excludeQuery: string, rgRelative: string -> Option<string>): seq<Match>
  {
    if lines == [] then []
    else RgMatches(lines[..|lines| - 1], excludeQuery, rgRelative)
         + Opt(ParseRgLine(lines[|lines| - 1], excludeQuery, rgRelative))
  }

  lemma RgMatchesAppend(lines: seq<string>, line: string, excludeQuery: string, rgRelative: string -> Option<string>)
    ensures RgMatches(lines + [line], excludeQuery, rgRelative)
            == RgMatches(lines, excludeQuery, rgRelative) + Opt(ParseRgLine(line, excludeQuery, rgRelative))
  {
    assert (lines + [line])[..|lines|] == lines;
  }

  /** The body of the parse loop for one line of ripgrep output. */
  method ParseRgOutputLine(line: string, excludeQuery: string, rgRelative: string -> Option<string>)
    returns (m: Option<Match>)
    ensures m == ParseRgLine(line, excludeQuery, rgRelative)
  {
    if IsBlank(line) {
      return None;
    }
    if excludeQuery != "" && Contains(line, excludeQuery) {
      return None;
    }
    var colonPositions := FindColonPositions(line);
    if |colonPositions| < 2 {
      return None;
    }
    var fileStr := line[..colonPositions[0]];
    var lineNumStr := line[colonPositions[0] + 1..colonPositions[1]];
    var lineContent := line[colonPositions[1] + 1..];
    assert SplitRgLine(line).Some?;
    assert SplitRgLine(line).value == RgFields(fileStr, lineNumStr, lineContent);
    var fileRel := rgRelative(fileStr);
    var lineNum := ParseInt(lineNumStr);
    if fileRel.None? || lineNum.None? {
      return None;
    }
    return Some(Match(Slashes(fileRel.value), lineNum.value, lineContent));
  }

  /** The parse loop over `result.stdout.splitlines()`. */
  method ParseRgOutput(stdout: string, excludeQuery: string, rgRelative: string -> Option<string>)
    returns (matches: seq<Match>)
    ensures matches == RgMatches(SplitLines(stdout, StrSplitLines), excludeQuery, rgRelative)
  {
    var lines := SplitLines(stdout, StrSplitLines);
    matches := [];
    for i := 0 to |lines|
      invariant matches == RgMatches(lines[..i], excludeQuery, rgRelative)
    {
      assert lines[..i + 1] == lines[..i] + [lines[i]];
      RgMatchesAppend(lines[..i], lines[i], excludeQuery, rgRelative);
      var m := ParseRgOutputLine(lines[i], excludeQuery, rgRelative);
      if m.Some? {
        matches := matches + [m.value];
      }
    }
    assert lines[..|lines|] == lines;
  }

  /**
   * A path whose only colon, if any, is a drive prefix such as `C:\` or `C:/`,
   * which is the form the parser can take apart.
   */
  predicate ColonFreePath(path: string)
  {
    forall i :: 0 <= i < |path| && path[i] == ':' ==>
      i == 1 && |path| > 2 && (path[2] == '\\' || path[2] == '/')
  }

  /**
   * Round trip: `path + ":" + str(n) + ":" + content` splits back into its three
   * parts, whatever colons `content` holds, and parses to a match carrying `n`,
   * `content` and the resolved path with backslashes turned into slashes.
   */
  lemma RgLineRoundTrip(path: string, n: nat, content: string, rgRelative: string -> Option<string>)
    requires ColonFreePath(path)
    requires rgRelative(path).Some?
    ensures SplitRgLine(path + ":" + NatToString(n) + ":" + content) == Some(RgFields(path, NatToString(n), content))
    ensures ParseRgLine(path + ":" + NatToString(n) + ":" + content, "", rgRelative)
            == Some(Match(Slashes(rgRelative(path).value), n, content))
  {
    var digits := NatToString(n);
    var line := path + ":" + digits + ":" + content;
    var a, b := |path|, |path| + 1 + |digits|;
    FirstFieldColons(path, digits, content);
    assert line[..a] == path;
    assert line[a + 1..b] == digits;
    assert line[b + 1..] == content;
    assert SplitRgLine(line) == Some(RgFields(path, digits, content));
    NatRoundTrip(n);
    assert !IsBlank(line) by {
      assert !IsSpace(line[a]);
    }
  }

  /** The first two field colons of `path:digits:content` are the two separators. */
  lemma FirstFieldColons(path: string, digits: string, content: string)
    requires ColonFreePath(path)
    requires |digits| >= 1 && forall i :: 0 <= i < |digits| ==> IsDigit(digits[i])
    ensures var pos := ColonPositions(path + ":" + digits + ":" + content);
      |pos| >= 2 && pos[0] == |path| && pos[1] == |path| + 1 + |digits|
  {
    var line := path + ":" + digits + ":" + content;
    var a, b := |path|, |path| + 1 + |digits|;
    assert line[a] == ':' && line[b] == ':';
    assert forall i :: 0 <= i < a ==> line[i] == path[i];
    assert forall i :: a < i < b ==> line[i] == digits[i - a - 1];
    // the separator after the path is a field colon: a colon at index 1 is followed by a digit
    assert a == 1 ==> line[2] == digits[0];
    assert IsFieldColon(line, a) && IsFieldColon(line, b);
    var pos := ColonPositions(line);
    assert a in pos && b in pos;
    forall i | 0 <= i < a ensures !IsFieldColon(line, i) {
      if line[i] == ':' {
        assert path[i] == ':';
      }
    }
    forall i | a < i < b ensures line[i] != ':' {
      assert IsDigit(digits[i - a - 1]);
    }
    var j :| 0 <= j < |pos| && pos[j] == b;
    assert pos[0] <= a;
    assert j >= 1 && pos[1] <= b;
  }

  /**
   * Malformed lines are skipped, not fatal: fewer than two field colons, or a
   * line-number field `int()` rejects, gives no match; the colon of a drive
   * prefix is never a field separator.
   */
  lemma RgLineSkipped(line: string, excludeQuery: string, rgRelative: string -> Option<string>)
    ensures |ColonPositions(line)| < 2 ==> ParseRgLine(line, excludeQuery, rgRelative) == None
    ensures SplitRgLine(line).Some? && ParseInt(SplitRgLine(line).value.lineNumber).None? ==>
      ParseRgLine(line, excludeQuery, rgRelative) == None
    ensures |line| > 2 && line[1] == ':' && (line[2] == '\\' || line[2] == '/') ==> 1 !in ColonPositions(line)
  {
  }

  /**
   * Nothing parsed from ripgrep's output has a content field containing a
   * non-empty `excludeQuery`: the content is a tail of the raw line, which was
   * checked whole.
   */
  lemma {:induction false} RgMatchesExclude(lines: seq<string>, excludeQuery: string, rgRelative: string -> Option<string>)
    requires excludeQuery != ""
    ensures forall m :: m in RgMatches(lines, excludeQuery, rgRelative) ==> !Contains(m.lineContent, excludeQuery)
  {
    if lines != [] {
      RgMatchesExclude(lines[..|lines| - 1], excludeQuery, rgRelative);
      ParseRgLineExclude(lines[|lines| - 1], excludeQuery, rgRelative);
    }
  }

  lemma ParseRgLineExclude(line: string, excludeQuery: string, rgRelative: string -> Option<string>)
    requires excludeQuery != ""
    ensures ParseRgLine(line, excludeQuery, rgRelative).Some? ==>
      !Contains(ParseRgLine(line, excludeQuery, rgRelative).value.lineContent, excludeQuery)
  {
    var m := ParseRgLine(line, excludeQuery, rgRelative);
    if m.Some? {
      var pos := ColonPositions(line);
      assert m.value.lineContent == line[pos[1] + 1..|line|];
      if Contains(m.value.lineContent, excludeQuery) {
        ContainsInSlice(line, pos[1] + 1, |line|, excludeQuery);
      }
    }
  }

  /** Every path parsed from ripgrep's output uses forward slashes only. */
  lemma {:induction false} RgMatchesSlashes(lines: seq<string>, excludeQuery: string, rgRelative: string -> Option<string>)
    ensures forall m, j :: m in RgMatches(lines, excludeQuery, rgRelative) && 0 <= j < |m.filePath| ==> m.filePath[j] != '\\'
  {
    if lines != [] {
      RgMatchesSlashes(lines[..|lines| - 1], excludeQuery, rgRelative);
      var m := ParseRgLine(lines[|lines| - 1], excludeQuery, rgRelative);
      if m.Some? {
        SlashesSpec(rgRelative(SplitRgLine(lines[|lines| - 1]).value.file).value);
      }
    }
  }

  // ===========================================================================
  // The POSIX tier: find, then grep on each file
  // ===========================================================================

  /** The time limits of the POSIX tier. */
  datatype Budget = Budget(findTimeout: int, remaining: int, grepTimeout: int)

  /**
   * `find` gets `timeout // 2`, the grep phase the rest, and each grep run at
   * most five seconds of that rest.
   */
  function PosixBudget(timeout: int): (b: Budget)
    ensures b.findTimeout + b.remaining == timeout
    ensures b.findTimeout <= b.remaining <= b.findTimeout + 1
    ensures b.grepTimeout <= 5 && b.grepTimeout <= b.remaining
    ensures b.grepTimeout == 5 || b.grepTimeout == b.remaining
  {
    var half := timeout / 2;  // Python's floor division: the divisor is positive
    var rest := timeout - half;
    Budget(half, rest, if 5 < rest then 5 else rest)
  }

  /**
   * One line of `grep -n` output, `line_number:line_content`, for a file whose
   * root-relative path is `relPath` (`None` where `relative_to` fails).
   */
  function ParseGrepLine(line: string, excludeQuery: string, relPath: Option<string>): Option<Match>
  {
    if IsBlank(line) then None
    else if excludeQuery != "" && Contains(line, excludeQuery) then None
    else
      var k := FindChar(line, ':', 0);
      if k == |line| then None
      else
        var n := ParseInt(line[..k]);
        if n.Some? && relPath.Some? then Some(Match(Slashes(relPath.value), n.value, line[k + 1..])) else None
  }

  function GrepMatches(lines: seq<string>, excludeQuery: string, relPath: Option<string>): seq<Match>
  {
    if lines == [] then []
    else GrepMatches(lines[..|lines| - 1], excludeQuery, relPath)
         + Opt(ParseGrepLine(lines[|lines| - 1], excludeQuery, relPath))
  }

  lemma GrepMatchesAppend(lines: seq<string>, line: string, excludeQuery: string, relPath: Option<string>)
    ensures GrepMatches(lines + [line], excludeQuery, relPath)
            == GrepMatches(lines, excludeQuery, relPath) + Opt(ParseGrepLine(line, excludeQuery, relPath))
  {
    assert (lines + [line])[..|lines|] == lines;
  }

  /** The body of the parse loop for one line of grep output. */
  method ParseGrepOutputLine(line: string, excludeQuery: string, relPath: Option<string>)
    returns (m: Option<Match>)
    ensures m == ParseGrepLine(line, excludeQuery, relPath)
  {
    if IsBlank(line) {
      return None;
    }
    if excludeQuery != "" && Contains(line, excludeQuery) {
      return None;
    }
    var sep := FindChar(line, ':', 0);  // line.split(":", 1) has two parts iff a colon occurs
    if sep == |line| {
      return None;
    }
    var lineNum := ParseInt(line[..sep]);
    if lineNum.None? || relPath.None? {
      return None;
    }
    return Some(Match(Slashes(relPath.value), lineNum.value, line[sep + 1..]));
  }

  /** The parse loop over one grep run's `stdout.splitlines()`. */
  method ParseGrepOutput(stdout: string, excludeQuery: string, relPath: Option<string>)
    returns (matches: seq<Match>)
    ensures matches == GrepMatches(SplitLines(stdout, StrSplitLines), excludeQuery, relPath)
  {
    var lines := SplitLines(stdout, StrSplitLines);
    matches := [];
    for i := 0 to |lines|
      invariant matches == GrepMatches(lines[..i], excludeQuery, relPath)
    {
      assert lines[..i + 1] == lines[..i] + [lines[i]];
      GrepMatchesAppend(lines[..i], lines[i], excludeQuery, relPath);
      var m := ParseGrepOutputLine(lines[i], excludeQuery, relPath);
      matches := matches + Opt(m);
    }
    assert lines[..|lines|] == lines;
  }

  /** What a search tier found, and whether it ran out of time. */
  datatype TierResult = TierResult(matches: seq<Match>, timedOut: bool)

  function Prepend(ms: seq<Match>, t: TierResult): TierResult
  {
    TierResult(ms + t.matches, t.timedOut)
  }

  /**
   * What the outside world answers during one `search_in_files` call. The
   * query, file pattern, search root and regex flag are fixed for the call and
   * folded into these answers.
   */
  datatype SearchEnv = SearchEnv(
    rgOnPath: bool,                          // shutil.which("rg")
    rg: int -> ToolRun,                      // the ripgrep run, given its timeout
    rgRelative: string -> Option<string>,    // resolve + relative_to for a ripgrep path field
    grepUsable: bool,                        // shutil.which("grep") and not Windows
    find: int -> ToolRun,                    // the find run, given its timeout
    grep: (string, int) -> ToolRun,          // a grep run on a file, given its timeout
    grepRelative: string -> Option<string>,  // relative_to for a path printed by find
    grepElapsed: nat -> int,                 // seconds since the start when the k-th found file is reached
    walk: seq<WalkEntry>,                    // rglob(file_pattern), in the order it yields
    walkElapsed: nat -> int)                 // seconds since the start when the k-th walked path is reached

  /**
   * A path `rglob` yields: its root-relative path, whether it is a regular
   * file, and its text, or `None` where `search_in_file` or `relative_to`
   * raises for it (unreadable, binary, outside the root).
   */
  datatype WalkEntry = WalkEntry(relPath: string, isFile: bool, content: Option<string>)

  /**
   * The grep loop from the `k`-th found file on: a clock past `timeout` stops
   * with `timed_out`; blank names are skipped; an OS error other than a
   * missing grep ends the tier, keeping what was found.
   */
  function GrepLoop(files: seq<string>, k: nat, excludeQuery: string, timeout: int, env: SearchEnv): TierResult
    decreases |files| - k
  {
    if k >= |files| then TierResult([], false)
    else if env.grepElapsed(k) > timeout then TierResult([], true)
    else if IsBlank(files[k]) then GrepLoop(files, k + 1, excludeQuery, timeout, env)
    else if env.grep(files[k], PosixBudget(timeout).grepTimeout).OSFailure? then TierResult([], false)
    else Prepend(GrepFileHits(files[k], excludeQuery, PosixBudget(timeout).grepTimeout, env),
                 GrepLoop(files, k + 1, excludeQuery, timeout, env))
  }

  /**
   * What one grep run on `file` contributes: its parsed output when it exits
   * with 0 (matches) or 1 (none), nothing for other exit codes, a timeout or a
   * missing grep.
   */
  function GrepFileHits(file: string, excludeQuery: string, grepTimeout: int, env: SearchEnv): seq<Match>
  {
    match env.grep(file, grepTimeout)
    case Completed(rc, out) =>
      if rc == 0 || rc == 1 then GrepMatches(SplitLines(out, StrSplitLines), excludeQuery, env.grepRelative(file)) else []
    case _ => []
  }

  /** The file list of a successful find: `stdout.strip().split("\n")`. */
  function FoundFiles(stdout: string): seq<string>
  {
    SplitOnChar(Strip(stdout), '\n')
  }

  /** The POSIX tier: a find that does not exit with 0, or raises, contributes nothing. */
  function GrepTier(excludeQuery: string, timeout: int, env: SearchEnv): TierResult
  {
    match env.find(PosixBudget(timeout).findTimeout)
    case Completed(rc, out) =>
      if rc == 0 then GrepLoop(FoundFiles(out), 0, excludeQuery, timeout, env) else TierResult([], false)
    case _ => TierResult([], false)
  }

  /**
   * One grep run inside the loop: the hits it yields, and whether it raised
   * an OS error that ends the tier.
   */
  method GrepOneFile(fileStr: string, excludeQuery: string, grepTimeout: int, env: SearchEnv)
    returns (found: seq<Match>, failed: bool)
    ensures failed <==> env.grep(fileStr, grepTimeout).OSFailure?
    ensures found == GrepFileHits(fileStr, excludeQuery, grepTimeout, env)
  {
    var grepResult := env.grep(fileStr, grepTimeout);
    failed := grepResult.OSFailure?;
    found := [];
    if grepResult.Completed? && (grepResult.returnCode == 0 || grepResult.returnCode == 1) {
      found := ParseGrepOutput(grepResult.stdout, excludeQuery, env.grepRelative(fileStr));
    }
  }

  method RunGrepTier(excludeQuery: string, timeout: int, env: SearchEnv) returns (t: TierResult)
    ensures t == GrepTier(excludeQuery, timeout, env)
  {
    var budget := PosixBudget(timeout);
    var findResult := env.find(budget.findTimeout);
    if !findResult.Completed? || findResult.returnCode != 0 {
      return TierResult([], false);
    }
    var filesToSearch := FoundFiles(findResult.stdout);
    var matches: seq<Match> := [];
    var timedOut := false;
    var i := 0;
    while i < |filesToSearch|
      invariant 0 <= i <= |filesToSearch|
      invariant Prepend(matches, GrepLoop(filesToSearch, i, excludeQuery, timeout, env))
                == GrepLoop(filesToSearch, 0, excludeQuery, timeout, env)
      decreases |filesToSearch| - i
    {
      var fileStr := filesToSearch[i];
      if env.grepElapsed(i) > timeout {
        timedOut := true;
        assert GrepLoop(filesToSearch, i, excludeQuery, timeout, env) == TierResult([], true);
        break;
      }
      if IsBlank(fileStr) {
        i := i + 1;
        continue;
      }
      var found, failed := GrepOneFile(fileStr, excludeQuery, budget.grepTimeout, env);
      if failed {
        assert GrepLoop(filesToSearch, i, excludeQuery, timeout, env) == TierResult([], false);
        break;
      }
      ghost var rest := GrepLoop(filesToSearch, i + 1, excludeQuery, timeout, env);
      assert GrepLoop(filesToSearch, i, excludeQuery, timeout, env) == Prepend(found, rest);
      assert (matches + found) + rest.matches == matches + (found + rest.matches);
      matches := matches + found;
      i := i + 1;
    }
    assert Prepend(matches, GrepLoop(filesToSearch, i, excludeQuery, timeout, env)) == TierResult(matches, timedOut);
    t := TierResult(matches, timedOut);
  }

  // ===========================================================================
  // The ripgrep tier and the in-process tier
  // ===========================================================================

  /**
   * The ripgrep tier: whatever ripgrep printed is parsed, whatever its exit
   * code; its timeout gives no matches and sets `timed_out`; any other error
   * running it propagates out of the search.
   */
  function RgTier(excludeQuery: string, timeout: int, env: SearchEnv): Result<TierResult, SearchError>
  {
    match env.rg(timeout)
    case Completed(_, out) => Success(TierResult(RgMatches(SplitLines(out, StrSplitLines), excludeQuery, env.rgRelative), false))
    case TimedOut => Success(TierResult([], true))
    case _ => Failure(ToolRunFailed)
  }

  method RunRgTier(excludeQuery: string, timeout: int, env: SearchEnv) returns (r: Result<TierResult, SearchError>)
    ensures r == RgTier(excludeQuery, timeout, env)
  {
    var result := env.rg(timeout);
    if result.TimedOut? {
      return Success(TierResult([], true));
    }
    if !result.Completed? {
      return Failure(ToolRunFailed);
    }
    var matches := ParseRgOutput(result.stdout, excludeQuery, env.rgRelative);
    r := Success(TierResult(matches, false));
  }

  /** One file's literal matches turned into search hits, dropping those whose content holds `excludeQuery`. */
  function FileHits(relPath: string, found: seq<LineMatch>, excludeQuery: string): seq<Match>
  {
    if found == [] then []
    else
      var m := found[|found| - 1];
      FileHits(relPath, found[..|found| - 1], excludeQuery)
      + (if excludeQuery != "" && Contains(m.lineContent, excludeQuery) then []
         else [Match(Slashes(relPath), m.lineNumber, m.lineContent)])
  }

  lemma FileHitsAppend(relPath: string, found: seq<LineMatch>, m: LineMatch, excludeQuery: string)
    ensures FileHits(relPath, found + [m], excludeQuery)
            == FileHits(relPath, found, excludeQuery)
               + (if excludeQuery != "" && Contains(m.lineContent, excludeQuery) then []
                  else [Match(Slashes(relPath), m.lineNumber, m.lineContent)])
  {
    assert (found + [m])[..|found|] == found;
  }

  /**
   * The in-process walk from the `k`-th path on: a clock past `timeout` stops
   * with `timed_out`; directories and files `search_in_file` fails on are
   * skipped.
   */
  function WalkLoop(walk: seq<WalkEntry>, k: nat, query: string, excludeQuery: string, timeout: int, elapsed: nat -> int): TierResult
    decreases |walk| - k
  {
    if k >= |walk| then TierResult([], false)
    else if elapsed(k) > timeout then TierResult([], true)
    else if !walk[k].isFile || walk[k].content.None? then WalkLoop(walk, k + 1, query, excludeQuery, timeout, elapsed)
    else Prepend(FileHits(walk[k].relPath, LiteralMatches(query, FileLines(walk[k].content.value), 1), excludeQuery),
                 WalkLoop(walk, k + 1, query, excludeQuery, timeout, elapsed))
  }

  /** The loop over one file's `search_in_file` matches. */
  method CollectFileHits(relPath: string, found: seq<LineMatch>, excludeQuery: string) returns (hits: seq<Match>)
    ensures hits == FileHits(relPath, found, excludeQuery)
  {
    hits := [];
    for j := 0 to |found|
      invariant hits == FileHits(relPath, found[..j], excludeQuery)
    {
      var m := found[j];
      assert found[..j + 1] == found[..j] + [m];
      FileHitsAppend(relPath, found[..j], m, excludeQuery);
      if excludeQuery != "" && Contains(m.lineContent, excludeQuery) {
        continue;
      }
      hits := hits + [Match(Slashes(relPath), m.lineNumber, m.lineContent)];
    }
    assert found[..|found|] == found;
  }

  lemma PrependTwice(a: seq<Match>, b: seq<Match>, t: TierResult)
    ensures Prepend(a + b, t) == Prepend(a, Prepend(b, t))
  {
    assert a + b + t.matches == a + (b + t.matches);
  }

  method RunWalkTier(query: string, excludeQuery: string, timeout: int, env: SearchEnv) returns (t: TierResult)
    ensures t == WalkLoop(env.walk, 0, query, excludeQuery, timeout, env.walkElapsed)
  {
    var matches: seq<Match> := [];
    var timedOut := false;
    var i := 0;
    while i < |env.walk|
      invariant 0 <= i <= |env.walk|
      invariant Prepend(matches, WalkLoop(env.walk, i, query, excludeQuery, timeout, env.walkElapsed))
                == WalkLoop(env.walk, 0, query, excludeQuery, timeout, env.walkElapsed)
      decreases |env.walk| - i
    {
      var file := env.walk[i];
      if env.walkElapsed(i) > timeout {
        timedOut := true;
        break;
      }
      if file.isFile && file.content.Some? {
        var fileResult := SearchInFile(query, file.content.value);
        var hits := CollectFileHits(file.relPath, fileResult.matches, excludeQuery);
        PrependTwice(matches, hits, WalkLoop(env.walk, i + 1, query, excludeQuery, timeout, env.walkElapsed));
        matches := matches + hits;
      }
      i := i + 1;
    }
    t := TierResult(matches, timedOut);
  }

  // ===========================================================================
  // search_in_files
  // ===========================================================================

  /** The tier tried first: ripgrep when on PATH, else find + grep off Windows, else nothing. */
  function FirstTier(excludeQuery: string, timeout: int, env: SearchEnv): Result<TierResult, SearchError>
  {
    if env.rgOnPath then RgTier(excludeQuery, timeout, env)
    else if env.grepUsable then Success(GrepTier(excludeQuery, timeout, env))
    else Success(TierResult([], false))
  }

  /**
   * Reference definition of `search_in_files` in literal mode, on a search
   * root that passed validation and that exists iff `pathExists`.
   */
  function SearchSpec(query: string, excludeQuery: string, timeout: int, pathExists: bool, env: SearchEnv): Result<SearchResult, SearchError>
  {
    if !pathExists then Failure(PathNotFound)
    else match FirstTier(excludeQuery, timeout, env)
      case Failure(e) => Failure(e)
      case Success(first) =>
        var t := if first.matches == [] && !first.timedOut
          then WalkLoop(env.walk, 0, query, excludeQuery, timeout, env.walkElapsed)
          else first;
        Success(SearchResult(t.matches, |t.matches|, t.timedOut))
  }

  method SearchInFiles(query: string, excludeQuery: string, timeout: int, pathExists: bool, env: SearchEnv)
    returns (r: Result<SearchResult, SearchError>)
    ensures r == SearchSpec(query, excludeQuery, timeout, pathExists, env)
    ensures r.Success? ==> r.value.totalMatches == |r.value.matches|
    ensures !pathExists ==> r == Failure(PathNotFound)
  {
    if !pathExists {
      return Failure(PathNotFound);
    }
    var matches: seq<Match> := [];
    var timedOut := false;
    if env.rgOnPath {
      var rg := RunRgTier(excludeQuery, timeout, env);
      if rg.Failure? {
        return Failure(rg.error);
      }
      matches, timedOut := rg.value.matches, rg.value.timedOut;
    } else if env.grepUsable {
      var posix := RunGrepTier(excludeQuery, timeout, env);
      matches, timedOut := posix.matches, posix.timedOut;
    }
    if matches == [] && !timedOut {
      var walked := RunWalkTier(query, excludeQuery, timeout, env);
      matches, timedOut := walked.matches, walked.timedOut;
    }
    r := Success(SearchResult(matches, |matches|, timedOut));
  }

  // ===========================================================================
  // Properties of search_in_files
  // ===========================================================================

  lemma ParseGrepLineExclude(line: string, excludeQuery: string, relPath: Option<string>)
    requires excludeQuery != ""
    ensures ParseGrepLine(line, excludeQuery, relPath).Some? ==>
      !Contains(ParseGrepLine(line, excludeQuery, relPath).value.lineContent, excludeQuery)
  {
    var m := ParseGrepLine(line, excludeQuery, relPath);
    if m.Some? {
      var k := FindChar(line, ':', 0);
      assert m.value.lineContent == line[k + 1..|line|];
      if Contains(m.value.lineContent, excludeQuery) {
        ContainsInSlice(line, k + 1, |line|, excludeQuery);
      }
    }
  }

  lemma {:induction false} GrepMatchesExclude(lines: seq<string>, excludeQuery: string, relPath: Option<string>)
    requires excludeQuery != ""
    ensures forall m :: m in GrepMatches(lines, excludeQuery, relPath) ==> !Contains(m.lineContent, excludeQuery)
  {
    if lines != [] {
      GrepMatchesExclude(lines[..|lines| - 1], excludeQuery, relPath);
      ParseGrepLineExclude(lines[|lines| - 1], excludeQuery, relPath);
    }
  }

  lemma {:induction false} GrepMatchesSlashes(lines: seq<string>, excludeQuery: string, relPath: Option<string>)
    ensures forall m, j :: m in GrepMatches(lines, excludeQuery, relPath) && 0 <= j < |m.filePath| ==> m.filePath[j] != '\\'
  {
    if lines != [] {
      GrepMatchesSlashes(lines[..|lines| - 1], excludeQuery, relPath);
      if relPath.Some? {
        SlashesSpec(relPath.value);
      }
    }
  }

  lemma {:induction false} FileHitsProps(relPath: string, found: seq<LineMatch>, excludeQuery: string)
    ensures forall m :: m in FileHits(relPath, found, excludeQuery) ==>
      m.filePath == Slashes(relPath) && LineMatch(m.lineNumber, m.lineContent) in found
      && (excludeQuery != "" ==> !Contains(m.lineContent, excludeQuery))
  {
    if found != [] {
      FileHitsProps(relPath, found[..|found| - 1], excludeQuery);
    }
  }

  /** A predicate every hit of a tier satisfies: no excluded text, no backslash in the path. */
  predicate CleanHit(m: Match, excludeQuery: string)
  {
    (excludeQuery != "" ==> !Contains(m.lineContent, excludeQuery))
    && forall j :: 0 <= j < |m.filePath| ==> m.filePath[j] != '\\'
  }

  lemma {:induction false} GrepLoopClean(files: seq<string>, k: nat, excludeQuery: string, timeout: int, env: SearchEnv)
    ensures forall m :: m in GrepLoop(files, k, excludeQuery, timeout, env).matches ==> CleanHit(m, excludeQuery)
    decreases |files| - k
  {
    if k < |files| && env.grepElapsed(k) <= timeout {
      GrepLoopClean(files, k + 1, excludeQuery, timeout, env);
      var out := env.grep(files[k], PosixBudget(timeout).grepTimeout);
      if out.Completed? {
        var lines := SplitLines(out.stdout, StrSplitLines);
        GrepMatchesSlashes(lines, excludeQuery, env.grepRelative(files[k]));
        if excludeQuery != "" {
          GrepMatchesExclude(lines, excludeQuery, env.grepRelative(files[k]));
        }
      }
    }
  }

  lemma {:induction false} WalkLoopClean(walk: seq<WalkEntry>, k: nat, query: string, excludeQuery: string, timeout: int, elapsed: nat -> int)
    ensures forall m :: m in WalkLoop(walk, k, query, excludeQuery, timeout, elapsed).matches ==> CleanHit(m, excludeQuery)
    decreases |walk| - k
  {
    if k < |walk| && elapsed(k) <= timeout {
      WalkLoopClean(walk, k + 1, query, excludeQuery, timeout, elapsed);
      if walk[k].isFile && walk[k].content.Some? {
        FileHitsProps(walk[k].relPath, LiteralMatches(query, FileLines(walk[k].content.value), 1), excludeQuery);
        SlashesSpec(walk[k].relPath);
      }
    }
  }

  /**
   * Whatever tier produced them, the returned matches never contain a
   * non-empty `exclude_query` in their content, and their paths use forward
   * slashes only.
   */
  lemma SearchClean(query: string, excludeQuery: string, timeout: int, pathExists: bool, env: SearchEnv)
    ensures var r := SearchSpec(query, excludeQuery, timeout, pathExists, env);
      r.Success? ==> forall m :: m in r.value.matches ==> CleanHit(m, excludeQuery)
  {
    WalkLoopClean(env.walk, 0, query, excludeQuery, timeout, env.walkElapsed);
    if env.rgOnPath {
      var out := env.rg(timeout);
      if out.Completed? {
        var lines := SplitLines(out.stdout, StrSplitLines);
        RgMatchesSlashes(lines, excludeQuery, env.rgRelative);
        if excludeQuery != "" {
          RgMatchesExclude(lines, excludeQuery, env.rgRelative);
        }
      }
    } else if env.grepUsable {
      var out := env.find(PosixBudget(timeout).findTimeout);
      if out.Completed? {
        GrepLoopClean(FoundFiles(out.stdout), 0, excludeQuery, timeout, env);
      }
    }
  }

  /**
   * The fallback gate: once the first tier has a match or has timed out, the
   * in-process walk is not consulted, so replacing what it would see changes
   * nothing; otherwise the result is exactly the walk's.
   */
  lemma SearchFallbackGate(query: string, excludeQuery: string, timeout: int, env: SearchEnv,
                           walk: seq<WalkEntry>, walkElapsed: nat -> int)
    requires FirstTier(excludeQuery, timeout, env).Success?
    ensures var first := FirstTier(excludeQuery, timeout, env).value;
      (first.matches != [] || first.timedOut) ==>
        SearchSpec(query, excludeQuery, timeout, true, env)
        == SearchSpec(query, excludeQuery, timeout, true, env.(walk := walk, walkElapsed := walkElapsed))
        == Success(SearchResult(first.matches, |first.matches|, first.timedOut))
    ensures var first := FirstTier(excludeQuery, timeout, env).value;
      var t := WalkLoop(env.walk, 0, query, excludeQuery, timeout, env.walkElapsed);
      (first.matches == [] && !first.timedOut) ==>
        SearchSpec(query, excludeQuery, timeout, true, env) == Success(SearchResult(t.matches, |t.matches|, t.timedOut))
  {
    var env2 := env.(walk := walk, walkElapsed := walkElapsed);
    assert FirstTier(excludeQuery, timeout, env2) == FirstTier(excludeQuery, timeout, env) by {
      assert RgTier(excludeQuery, timeout, env2) == RgTier(excludeQuery, timeout, env);
      GrepTierIgnoresWalk(excludeQuery, timeout, env, env2);
    }
  }

  lemma GrepTierIgnoresWalk(excludeQuery: string, timeout: int, env: SearchEnv, env2: SearchEnv)
    requires env2 == env.(walk := env2.walk, walkElapsed := env2.walkElapsed)
    ensures GrepTier(excludeQuery, timeout, env2) == GrepTier(excludeQuery, timeout, env)
  {
    var out := env.find(PosixBudget(timeout).findTimeout);
    if out.Completed? {
      GrepLoopIgnoresWalk(FoundFiles(out.stdout), 0, excludeQuery, timeout, env, env2);
    }
  }

  lemma {:induction false} GrepLoopIgnoresWalk(files: seq<string>, k: nat, excludeQuery: string, timeout: int, env: SearchEnv, env2: SearchEnv)
    requires env2 == env.(walk := env2.walk, walkElapsed := env2.walkElapsed)
    ensures GrepLoop(files, k, excludeQuery, timeout, env2) == GrepLoop(files, k, excludeQuery, timeout, env)
    decreases |files| - k
  {
    if k < |files| {
      GrepLoopIgnoresWalk(files, k + 1, excludeQuery, timeout, env, env2);
      assert GrepFileHits(files[k], excludeQuery, PosixBudget(timeout).grepTimeout, env2)
          == GrepFileHits(files[k], excludeQuery, PosixBudget(timeout).grepTimeout, env);
    }
  }

  // ===========================================================================
  // find_recently_modified_files
  // ===========================================================================

  /** `{"path", "mtime"}`; modification times are whole seconds. */
  datatype RecentFile = RecentFile(path: string, mtime: int)

  datatype RecentResult = RecentResult(files: seq<RecentFile>, totalFound: int)

  /**
   * A path `rglob` yields: whether it is a regular file, and its root-relative
   * path and modification time, or `None` where `relative_to` or `stat` raises.
   */
  datatype RecentEntry = RecentEntry(isFile: bool, info: Option<RecentFile>)

  /** What the outside world answers during one `find_recently_modified_files` call. */
  datatype RecentEnv = RecentEnv(
    hasFd: bool,                               // the tool detector's `has_fd`
    fd: ToolRun,                               // the fd run
    fdLookup: string -> Option<RecentFile>,    // resolve, relative_to and stat for a stripped fd line
    walk: seq<RecentEntry>)                    // rglob(file_pattern), in the order it yields

  /** `time.time() - hours_ago * 3600`. */
  function Cutoff(now: int, hoursAgo: int): int
  {
    now - hoursAgo * 3600
  }

  function MtimeKey(f: RecentFile): Sorting.Key
  {
    Sorting.IntKey(f.mtime)
  }

  /** `files.sort(key=mtime, reverse=True)`. */
  function MostRecentFirst(files: seq<RecentFile>): seq<RecentFile>
  {
    Sorting.SortBy(files, MtimeKey, true)
  }

  /** An fd output line: blank lines and lines whose lookup raises are skipped. */
  function FdLine(line: string, lookup: string -> Option<RecentFile>): Option<RecentFile>
  {
    if IsBlank(line) then None
    else match lookup(Strip(line))
      case None => None
      case Some(f) => Some(RecentFile(Slashes(f.path), f.mtime))
  }

  function FdFiles(lines: seq<string>, lookup: string -> Option<RecentFile>): seq<RecentFile>
  {
    if lines == [] then []
    else FdFiles(lines[..|lines| - 1], lookup) + Opt(FdLine(lines[|lines| - 1], lookup))
  }

  /** A walked path is kept iff it is a file whose `stat` succeeds with `mtime >= cutoff`. */
  predicate KeptRecent(e: RecentEntry, cutoff: int)
  {
    e.isFile && e.info.Some? && e.info.value.mtime >= cutoff
  }

  function WalkRecent(walk: seq<RecentEntry>, cutoff: int): seq<RecentFile>
  {
    if walk == [] then []
    else
      var e := walk[|walk| - 1];
      WalkRecent(walk[..|walk| - 1], cutoff)
      + (if KeptRecent(e, cutoff) then [RecentFile(Slashes(e.info.value.path), e.info.value.mtime)] else [])
  }

  /**
   * Reference definition: fd's list when fd is available and exits with 0
   * (fd applies the time window itself), the filtered walk otherwise; either
   * way sorted most recent first.
   */
  function RecentSpec(hoursAgo: int, now: int, pathExists: bool, env: RecentEnv): Result<RecentResult, SearchError>
  {
    if !pathExists then Failure(PathNotFound)
    else
      var files :=
        if env.hasFd && env.fd.Completed? && env.fd.returnCode == 0
        then FdFiles(SplitLines(env.fd.stdout, StrSplitLines), env.fdLookup)
        else WalkRecent(env.walk, Cutoff(now, hoursAgo));
      var sorted := MostRecentFirst(files);
      Success(RecentResult(sorted, |sorted|))
  }

  method CollectFdFiles(stdout: string, lookup: string -> Option<RecentFile>) returns (files: seq<RecentFile>)
    ensures files == FdFiles(SplitLines(stdout, StrSplitLines), lookup)
  {
    var lines := SplitLines(stdout, StrSplitLines);
    files := [];
    for i := 0 to |lines|
      invariant files == FdFiles(lines[..i], lookup)
    {
      assert lines[..i + 1] == lines[..i] + [lines[i]];
      assert lines[..i + 1][..i] == lines[..i];
      var f := ParseFdLine(lines[i], lookup);
      if f.Some? {
        files := files + [f.value];
      }
    }
    assert lines[..|lines|] == lines;
  }

  /** The body of the loop over fd's output lines. */
  method ParseFdLine(line: string, lookup: string -> Option<RecentFile>) returns (f: Option<RecentFile>)
    ensures f == FdLine(line, lookup)
  {
    if IsBlank(line) {
      return None;
    }
    var found := lookup(Strip(line));
    if found.None? {
      return None;
    }
    return Some(RecentFile(Slashes(found.value.path), found.value.mtime));
  }

  method CollectWalkFiles(walk: seq<RecentEntry>, cutoff: int) returns (files: seq<RecentFile>)
    ensures files == WalkRecent(walk, cutoff)
  {
    files := [];
    for i := 0 to |walk|
      invariant files == WalkRecent(walk[..i], cutoff)
    {
      var file := walk[i];
      assert walk[..i + 1] == walk[..i] + [file];
      assert walk[..i + 1][..i] == walk[..i];
      if file.isFile && file.info.Some? {
        var mtime := file.info.value.mtime;
        if mtime >= cutoff {
          files := files + [RecentFile(Slashes(file.info.value.path), mtime)];
        }
      }
    }
    assert walk[..|walk|] == walk;
  }

  method FindRecentlyModifiedFiles(hoursAgo: int, now: int, pathExists: bool, env: RecentEnv)
    returns (r: Result<RecentResult, SearchError>)
    ensures r == RecentSpec(hoursAgo, now, pathExists, env)
    ensures r.Success? ==> r.value.totalFound == |r.value.files|
    ensures r.Success? ==> forall i, j :: 0 <= i < j < |r.value.files| ==> r.value.files[i].mtime >= r.value.files[j].mtime
  {
    if !pathExists {
      return Failure(PathNotFound);
    }
    var cutoffTime := Cutoff(now, hoursAgo);
    var files: seq<RecentFile> := [];
    if env.hasFd && env.fd.Completed? && env.fd.returnCode == 0 {
      files := CollectFdFiles(env.fd.stdout, env.fdLookup);
    } else {
      files := CollectWalkFiles(env.walk, cutoffTime);
    }
    MostRecentFirstSpec(files);
    files := MostRecentFirst(files);
    r := Success(RecentResult(files, |files|));
  }

  /** The sort keeps exactly the files it was given and orders them by non-increasing `mtime`. */
  lemma MostRecentFirstSpec(files: seq<RecentFile>)
    ensures multiset(MostRecentFirst(files)) == multiset(files)
    ensures forall i, j :: 0 <= i < j < |MostRecentFirst(files)| ==>
      MostRecentFirst(files)[i].mtime >= MostRecentFirst(files)[j].mtime
  {
    Sorting.SortBySpec(files, MtimeKey, true);
    var s := MostRecentFirst(files);
    forall i, j | 0 <= i < j < |s| ensures s[i].mtime >= s[j].mtime {
      assert !Sorting.Before(MtimeKey, true, s[j], s[i]);
    }
  }

  /**
   * In the walk tier a file is reported iff it is a regular file whose
   * modification time is at least the cutoff.
   */
  lemma {:induction false} WalkRecentIff(walk: seq<RecentEntry>, cutoff: int)
    ensures forall f :: f in WalkRecent(walk, cutoff) ==> f.mtime >= cutoff
    ensures forall e :: e in walk && KeptRecent(e, cutoff) ==>
      RecentFile(Slashes(e.info.value.path), e.info.value.mtime) in WalkRecent(walk, cutoff)
    ensures forall f :: f in WalkRecent(walk, cutoff) ==>
      exists e :: e in walk && KeptRecent(e, cutoff) && f == RecentFile(Slashes(e.info.value.path), e.info.value.mtime)
  {
    if walk != [] {
      var init := walk[..|walk| - 1];
      WalkRecentIff(init, cutoff);
      assert walk == init + [walk[|walk| - 1]];
      forall f | f in WalkRecent(walk, cutoff)
        ensures exists e :: e in walk && KeptRecent(e, cutoff) && f == RecentFile(Slashes(e.info.value.path), e.info.value.mtime)
      {
        if f in WalkRecent(init, cutoff) {
          var e :| e in init && KeptRecent(e, cutoff) && f == RecentFile(Slashes(e.info.value.path), e.info.value.mtime);
          assert e in walk;
        } else {
          assert walk[|walk| - 1] in walk;
        }
      }
    }
  }

  /**
   * On the walk tier the result holds exactly the files modified at or after
   * the cutoff, most recent first.
   */
  lemma RecentWalkResult(hoursAgo: int, now: int, env: RecentEnv)
    requires !(env.hasFd && env.fd.Completed? && env.fd.returnCode == 0)
    ensures var r := RecentSpec(hoursAgo, now, true, env);
      r.Success?
      && (forall f :: f in r.value.files ==> f.mtime >= now - hoursAgo * 3600)
      && (forall e :: e in env.walk && KeptRecent(e, Cutoff(now, hoursAgo)) ==>
            RecentFile(Slashes(e.info.value.path), e.info.value.mtime) in r.value.files)
  {
    var files := WalkRecent(env.walk, Cutoff(now, hoursAgo));
    WalkRecentIff(env.walk, Cutoff(now, hoursAgo));
    MostRecentFirstSpec(files);
    var s := MostRecentFirst(files);
    forall f | f in s ensures f in files {
      assert f in multiset(s);
    }
    forall f | f in files ensures f in s {
      assert f in multiset(files);
    }
  }

  /** A file modified one hour ago is reported in a two-hour window and an older one is not. */
  lemma RecentExample()
    ensures var env := RecentEnv(false, NotFound, _ => None,
                                 [RecentEntry(true, Some(RecentFile("old.txt", 0))),
                                  RecentEntry(true, Some(RecentFile("new.txt", 6400))),
                                  RecentEntry(false, Some(RecentFile("dir", 9000)))]);
      RecentSpec(2, 10000, true, env) == Success(RecentResult([RecentFile("new.txt", 6400)], 1))
  {
    var walk := [RecentEntry(true, Some(RecentFile("old.txt", 0))),
                 RecentEntry(true, Some(RecentFile("new.txt", 6400))),
                 RecentEntry(false, Some(RecentFile("dir", 9000)))];
    assert Cutoff(10000, 2) == 2800;
    assert walk[..2] == walk[..|walk| - 1];
    assert walk[..2][..1] == walk[..1];
    assert walk[..1][..0] == [];
    assert WalkRecent(walk[..1], 2800) == [];
    assert Slashes("new.txt") == "new.txt";
    assert WalkRecent(walk[..2], 2800) == [RecentFile("new.txt", 6400)];
    assert WalkRecent(walk, 2800) == [RecentFile("new.txt", 6400)];
    var one := [RecentFile("new.txt", 6400)];
    assert Sorting.SortBy(one[1..], MtimeKey, true) == [];
    assert MostRecentFirst(one) == one;
  }
}
