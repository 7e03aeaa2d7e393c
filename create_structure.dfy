/**
 * The text-to-directory-tree tool: each non-blank line names a directory
 * (ending in `/`) or a file, nested under the directory of the nearest
 * shallower line by indentation of two spaces per level. The filesystem
 * calls are replaced by the list of operations they would perform.
 */
module CreateStructure {
  import opened Sequences
  import opened Wrappers

  /**
   * An operation on the filesystem, in the order the parser issues them:
   * `os.makedirs(path, exist_ok=True)`, which leaves an existing directory
   * alone, and the creation of an empty file where none exists.
   */
  datatype Op = MakeDir(path: string) | CreateFile(path: string)

  /**
   * The characters Python's `str.strip()` removes (those for which
   * `str.isspace` holds), by code point: tab to carriage return, the four
   * separators 0x1C-0x1F, space, and the Unicode spaces and line separators.
   */
  predicate IsSpace(c: char) {
    var n := c as int;
    (9 <= n <= 13) || (28 <= n <= 32) || n == 0x85 || n == 0xA0 || n == 0x1680
    || (0x2000 <= n <= 0x200A) || n == 0x2028 || n == 0x2029 || n == 0x202F || n == 0x205F || n == 0x3000
  }

  /** The length of the run of whitespace at the front. */
  function LeadingWhitespace(s: string): (n: nat)
    ensures n <= |s| && (n == |s| || !IsSpace(s[n]))
  {
    if |s| > 0 && IsSpace(s[0]) then 1 + LeadingWhitespace(s[1..]) else 0
  }

  /** The length of the run of whitespace at the back. */
  function TrailingWhitespace(s: string): (n: nat)
    ensures n <= |s| && (n == |s| || !IsSpace(s[|s| - 1 - n]))
  {
    if |s| > 0 && IsSpace(s[|s| - 1]) then 1 + TrailingWhitespace(s[..|s| - 1]) else 0
  }

  lemma {:induction false} LeadingWhitespaceRun(s: string)
    ensures forall i :: 0 <= i < LeadingWhitespace(s) ==> IsSpace(s[i])
  {
    if |s| > 0 && IsSpace(s[0]) {
      LeadingWhitespaceRun(s[1..]);
      forall i | 1 <= i < LeadingWhitespace(s)
        ensures IsSpace(s[i])
      {
        assert s[i] == s[1..][i - 1];
      }
    }
  }

  lemma {:induction false} TrailingWhitespaceRun(s: string)
    ensures forall i :: |s| - TrailingWhitespace(s) <= i < |s| ==> IsSpace(s[i])
  {
    if |s| > 0 && IsSpace(s[|s| - 1]) {
      TrailingWhitespaceRun(s[..|s| - 1]);
      forall i | |s| - TrailingWhitespace(s) <= i < |s| - 1
        ensures IsSpace(s[i])
      {
        assert s[i] == s[..|s| - 1][i];
      }
    }
  }

  /** `str.strip()`: the whitespace run at the front cut off, then the one at the back of what is left. */
  function Strip(s: string): string {
    var t := s[LeadingWhitespace(s)..];
    t[..|t| - TrailingWhitespace(t)]
  }

  lemma SliceOfSuffix(t: string, i: nat, k: nat)
    requires i + k <= |t|
    ensures t[i..][..k] == t[i..i + k]
  {
  }

  /** The stripped text neither starts nor ends with whitespace. */
  lemma StripEnds(s: string)
    ensures var r := Strip(s); |r| == 0 || (!IsSpace(r[0]) && !IsSpace(r[|r| - 1]))
  {
    var i := LeadingWhitespace(s);
    var t := s[i..];
    var c := TrailingWhitespace(t);
    var r := Strip(s);
    if |r| > 0 {
      assert r[0] == s[i];
      assert r[|r| - 1] == t[|t| - 1 - c];
    }
  }

  /**
   * `Strip` keeps the slice of the text after its leading whitespace and
   * before its trailing whitespace.
   */
  lemma StripSlice(s: string)
    ensures var r := Strip(s); var i := LeadingWhitespace(s);
      && i + |r| <= |s| && r == s[i..i + |r|]
      && (forall j :: 0 <= j < i ==> IsSpace(s[j]))
      && (forall j :: i + |r| <= j < |s| ==> IsSpace(s[j]))
  {
    var i := LeadingWhitespace(s);
    var t := s[i..];
    var r := Strip(s);
    SliceOfSuffix(s, i, |r|);
    LeadingWhitespaceRun(s);
    TrailingWhitespaceRun(t);
    forall j | i + |r| <= j < |s|
      ensures IsSpace(s[j])
    {
      assert s[j] == t[j - i];
    }
  }

  /** Stripping leaves nothing exactly when the text is all whitespace. */
  lemma StripEmpty(s: string)
    ensures Strip(s) == "" <==> forall j :: 0 <= j < |s| ==> IsSpace(s[j])
  {
    var i := LeadingWhitespace(s);
    var t := s[i..];
    LeadingWhitespaceRun(s);
    TrailingWhitespaceRun(t);
  }

  /** `text.split('\n')`: the pieces between newlines; the empty text is one empty piece. */
  function SplitLines(s: string): (parts: seq<string>)
    ensures |parts| >= 1
    ensures forall i :: 0 <= i < |parts| ==> '\n' !in parts[i]
  {
    if |s| == 0 then [""]
    else
      var p := SplitLines(s[..|s| - 1]);
      var c := s[|s| - 1];
      if c == '\n' then p + [""]
      else p[..|p| - 1] + [p[|p| - 1] + [c]]
  }

  /** Rejoining the pieces with newlines. */
  function JoinLines(parts: seq<string>): string
    requires |parts| >= 1
  {
    if |parts| == 1 then parts[0] else JoinLines(parts[..|parts| - 1]) + "\n" + parts[|parts| - 1]
  }

  /** Extending the last piece by a character extends the joined text by it. */
  lemma {:induction false} JoinExtendLast(p: seq<string>, c: char)
    requires |p| >= 1
    ensures JoinLines(p[..|p| - 1] + [p[|p| - 1] + [c]]) == JoinLines(p) + [c]
  {
    var q := p[..|p| - 1] + [p[|p| - 1] + [c]];
    if |p| > 1 {
      assert q[..|q| - 1] == p[..|p| - 1];
    }
  }

  /** Adding an empty piece appends a newline. */
  lemma JoinNewPiece(p: seq<string>)
    requires |p| >= 1
    ensures JoinLines(p + [""]) == JoinLines(p) + "\n"
  {
    assert (p + [""])[..|p|] == p;
  }

  /** Splitting loses nothing: the pieces rejoin to the text. */
  lemma {:induction false} SplitJoin(s: string)
    ensures JoinLines(SplitLines(s)) == s
  {
    if |s| > 0 {
      var init := s[..|s| - 1];
      SplitJoin(init);
      assert s == init + [s[|s| - 1]];
      if s[|s| - 1] == '\n' {
        JoinNewPiece(SplitLines(init));
      } else {
        JoinExtendLast(SplitLines(init), s[|s| - 1]);
      }
    }
  }

  /** A text without newlines is a single piece. */
  lemma {:induction false} SplitSingle(s: string)
    requires '\n' !in s
    ensures SplitLines(s) == [s]
  {
    if |s| > 0 {
      assert '\n' !in s[..|s| - 1];
      SplitSingle(s[..|s| - 1]);
      assert s[..|s| - 1] + [s[|s| - 1]] == s;
    }
  }

  /** The number of leading `' '` characters (tabs do not count). */
  function LeadingSpaces(line: string): (n: nat)
    ensures n <= |line|
    ensures forall i :: 0 <= i < n ==> line[i] == ' '
    ensures n == |line| || line[n] != ' '
  {
    if |line| > 0 && line[0] == ' ' then 1 + LeadingSpaces(line[1..]) else 0
  }

  /** `content.rstrip('/')`. */
  function RStripSlash(s: string): (r: string)
    ensures |r| <= |s| && r == s[..|r|]
    ensures |r| == 0 || r[|r| - 1] != '/'
    ensures forall i :: |r| <= i < |s| ==> s[i] == '/'
  {
    if |s| > 0 && s[|s| - 1] == '/' then RStripSlash(s[..|s| - 1]) else s
  }

  /** `os.path.join(a, b)` with POSIX separators: an absolute `b` replaces `a`. */
  function PathJoin(a: string, b: string): (r: string)
    ensures |b| > 0 && b[0] == '/' ==> r == b
    ensures !(|b| > 0 && b[0] == '/') ==> |r| >= |a| + |b| && r[..|a|] == a && r[|r| - |b|..] == b
    ensures |a| > 0 ==> '/' in r
  {
    if |b| > 0 && b[0] == '/' then b
    else if |a| == 0 || a[|a| - 1] == '/' then
      assert |a| > 0 ==> (a + b)[|a| - 1] == '/';
      a + b
    else
      assert (a + "/" + b)[|a|] == '/';
      a + "/" + b
  }

  /** One past the last `/` of `p`, or zero when it has none. */
  function SlashEnd(p: string): (i: nat)
    ensures i <= |p| && (i == 0 <==> '/' !in p)
    ensures i > 0 ==> p[i - 1] == '/'
  {
    if |p| == 0 then 0
    else if p[|p| - 1] == '/' then |p|
    else
      assert '/' in p ==> '/' in p[..|p| - 1];
      SlashEnd(p[..|p| - 1])
  }

  /**
   * POSIX `os.path.dirname`: the text up to the last `/`, with its trailing
   * slashes removed unless it is nothing but slashes.
   */
  function Dirname(p: string): (r: string)
    ensures '/' !in p ==> r == ""
    ensures '/' in p ==> r != "" && |r| <= |p| && r == p[..|r|]
  {
    var head := p[..SlashEnd(p)];
    if forall j :: 0 <= j < |head| ==> head[j] == '/' then head else RStripSlash(head)
  }

  /** The two stacks: the indent levels of the open directories and their paths, the base path at the bottom. */
  datatype Stacks = Stacks(indents: seq<nat>, paths: seq<string>)

  /** Both stacks popped until at most `level` indents remain. */
  function Popped(st: Stacks, level: nat): (r: Stacks)
    requires |st.paths| == |st.indents| + 1
    ensures |r.indents| == if |st.indents| > level then level else |st.indents|
    ensures r.indents == st.indents[..|r.indents|] && r.paths == st.paths[..|r.indents| + 1]
    decreases |st.indents|
  {
    if |st.indents| > level then
      Popped(Stacks(st.indents[..|st.indents| - 1], st.paths[..|st.paths| - 1]), level)
    else st
  }

  /** The operations of a file line: its directory, when the path has one, then the file. */
  function FileOps(full: string): seq<Op> {
    var parent := Dirname(full);
    (if parent != "" then [MakeDir(parent)] else []) + [CreateFile(full)]
  }

  /** A non-blank line of stripped text `content` at indent level `level`: the stacks after it and its operations. */
  function PlaceItem(st: Stacks, level: nat, content: string): (Stacks, seq<Op>)
    requires |st.paths| == |st.indents| + 1 && content != ""
  {
    var p := Popped(st, level);
    var current := p.paths[|p.paths| - 1];
    if content[|content| - 1] == '/' then
      var dir := PathJoin(current, RStripSlash(content));
      (Stacks(p.indents + [level], p.paths + [dir]), [MakeDir(dir)])
    else
      (p, FileOps(PathJoin(current, content)))
  }

  /** One line of the text; a blank line is skipped, others sit at two spaces per level. */
  function Place(st: Stacks, line: string): (Stacks, seq<Op>)
    requires |st.paths| == |st.indents| + 1
  {
    var content := Strip(line);
    if content == "" then (st, []) else PlaceItem(st, LeadingSpaces(line) / 2, content)
  }

  /** The lines from index `n` on, in order, from the given stacks: the final stacks and the operations issued. */
  function RunFrom(st: Stacks, lines: seq<string>, n: nat): (r: (Stacks, seq<Op>))
    requires |st.paths| == |st.indents| + 1 && n <= |lines|
    ensures |r.0.paths| == |r.0.indents| + 1 && r.0.paths[0] == st.paths[0]
    decreases |lines| - n
  {
    if n == |lines| then (st, [])
    else
      PlaceShape(st, lines[n]);
      var (st1, ops1) := Place(st, lines[n]);
      var (st2, ops2) := RunFrom(st1, lines, n + 1);
      (st2, ops1 + ops2)
  }

  /**
   * `parse_structure(text, base_path)`: the base directory, then every
   * line's operations; `None` for an empty base path, on which
   * `os.makedirs` raises before any line is read.
   */
  function Parse(text: string, base: string): Option<seq<Op>> {
    if base == "" then None
    else Some([MakeDir(base)] + RunFrom(Stacks([], [base]), SplitLines(Strip(text)), 0).1)
  }

  /** A placed line keeps the two stacks one apart with the base at the bottom. */
  lemma PlaceShape(st: Stacks, line: string)
    requires |st.paths| == |st.indents| + 1
    ensures |Place(st, line).0.paths| == |Place(st, line).0.indents| + 1
    ensures Place(st, line).0.paths[0] == st.paths[0]
  {
  }

  /**
   * An item first pops both stacks to at most its level; then a directory
   * pushes its level and its path (the current path joined with the name
   * less its trailing slashes) and makes it, while a file pushes nothing,
   * makes the directory part of the current path joined with its text when
   * there is one, and creates that file.
   */
  lemma PlaceItemProperties(st: Stacks, level: nat, content: string)
    requires |st.paths| == |st.indents| + 1 && content != ""
    ensures var k := if |st.indents| > level then level else |st.indents|;
      var dir := PathJoin(st.paths[k], RStripSlash(content));
      content[|content| - 1] == '/' ==>
        PlaceItem(st, level, content) == (Stacks(st.indents[..k] + [level], st.paths[..k + 1] + [dir]), [MakeDir(dir)])
    ensures var k := if |st.indents| > level then level else |st.indents|;
      var full := PathJoin(st.paths[k], content);
      content[|content| - 1] != '/' ==>
        PlaceItem(st, level, content) == (Stacks(st.indents[..k], st.paths[..k + 1]),
          (if Dirname(full) != "" then [MakeDir(Dirname(full))] else []) + [CreateFile(full)])
  {
    var k := if |st.indents| > level then level else |st.indents|;
    PoppedTo(st, level);
    if content[|content| - 1] != '/' {
      var full := PathJoin(st.paths[k], content);
      assert PlaceItem(st, level, content) == (Popped(st, level), FileOps(full));
    }
  }

  /** Popping to `level` keeps the first `k` indents and `k + 1` paths, the current path being `paths[k]`. */
  lemma PoppedTo(st: Stacks, level: nat)
    requires |st.paths| == |st.indents| + 1
    ensures var k := if |st.indents| > level then level else |st.indents|;
      var p := Popped(st, level);
      p == Stacks(st.indents[..k], st.paths[..k + 1]) && p.paths[|p.paths| - 1] == st.paths[k]
  {
  }

  /** A blank line changes nothing; any other line is an item at half its leading spaces. */
  lemma PlaceProperties(st: Stacks, line: string)
    requires |st.paths| == |st.indents| + 1
    ensures Strip(line) == "" <==> Place(st, line) == (st, [])
    ensures Strip(line) != "" ==> Place(st, line) == PlaceItem(st, LeadingSpaces(line) / 2, Strip(line))
  {
    if Strip(line) != "" {
      PlaceItemProperties(st, LeadingSpaces(line) / 2, Strip(line));
    }
  }

  /** Every directory on the stack is the join of the one below it with some name. */
  ghost predicate JoinedUnder(child: string, parent: string) {
    exists name :: child == PathJoin(parent, name)
  }

  ghost predicate Chained(st: Stacks)
    requires |st.paths| == |st.indents| + 1
  {
    forall i :: 0 <= i < |st.indents| ==> JoinedUnder(st.paths[i + 1], st.paths[i])
  }

  lemma PlaceItemChained(st: Stacks, level: nat, content: string)
    requires |st.paths| == |st.indents| + 1 && content != "" && Chained(st)
    ensures Chained(PlaceItem(st, level, content).0)
  {
    PlaceItemProperties(st, level, content);
    var k := if |st.indents| > level then level else |st.indents|;
    var r := PlaceItem(st, level, content).0;
    forall i | 0 <= i < |r.indents|
      ensures JoinedUnder(r.paths[i + 1], r.paths[i])
    {
      if i < k {
        assert JoinedUnder(st.paths[i + 1], st.paths[i]);
        assert r.paths[i + 1] == st.paths[i + 1] && r.paths[i] == st.paths[i];
      } else {
        assert i == k && content[|content| - 1] == '/';
        var dir := PathJoin(st.paths[k], RStripSlash(content));
        assert r.paths == st.paths[..k + 1] + [dir];
        assert r.paths[i] == st.paths[k] && r.paths[i + 1] == dir;
      }
    }
  }

  lemma PlaceChained(st: Stacks, line: string)
    requires |st.paths| == |st.indents| + 1 && Chained(st)
    ensures Chained(Place(st, line).0)
  {
    if Strip(line) != "" {
      PlaceItemChained(st, LeadingSpaces(line) / 2, Strip(line));
    }
  }

  /** Running the lines keeps the base at the bottom of the stacks and every directory on them joined under the one below. */
  lemma {:induction false} RunChained(st: Stacks, lines: seq<string>, n: nat)
    requires |st.paths| == |st.indents| + 1 && n <= |lines| && Chained(st)
    ensures Chained(RunFrom(st, lines, n).0)
    decreases |lines| - n
  {
    if n < |lines| {
      PlaceShape(st, lines[n]);
      PlaceChained(st, lines[n]);
      RunChained(Place(st, lines[n]).0, lines, n + 1);
    }
  }

  /** The positions of the non-blank lines from index `n` on. */
  ghost function NonBlank(lines: seq<string>, n: nat): set<int> {
    set i | n <= i < |lines| && Strip(lines[i]) != ""
  }

  lemma NonBlankStep(lines: seq<string>, n: nat)
    requires n < |lines|
    ensures NonBlank(lines, n) == NonBlank(lines, n + 1) + (if Strip(lines[n]) != "" then {n} else {})
    ensures n !in NonBlank(lines, n + 1)
  {
  }

  /** A non-blank line that names a file rather than a directory. */
  predicate IsFileLine(line: string) {
    var content := Strip(line);
    content != "" && content[|content| - 1] != '/'
  }

  /** The positions of the file lines from index `n` on. */
  ghost function FileLines(lines: seq<string>, n: nat): set<int> {
    set i | n <= i < |lines| && IsFileLine(lines[i])
  }

  lemma FileLinesStep(lines: seq<string>, n: nat)
    requires n < |lines|
    ensures FileLines(lines, n) == FileLines(lines, n + 1) + (if IsFileLine(lines[n]) then {n} else {})
    ensures n !in FileLines(lines, n + 1)
  {
  }

  /** No path on the stack is empty. */
  ghost predicate NonEmptyPaths(st: Stacks) {
    forall i :: 0 <= i < |st.paths| ==> st.paths[i] != ""
  }

  /** Joining under a non-empty path gives a non-empty path, so placing a line keeps the stack free of empty paths. */
  lemma PlaceNonEmpty(st: Stacks, line: string)
    requires |st.paths| == |st.indents| + 1 && NonEmptyPaths(st)
    ensures NonEmptyPaths(Place(st, line).0)
  {
    if Strip(line) != "" {
      PlaceItemProperties(st, LeadingSpaces(line) / 2, Strip(line));
    }
  }

  /**
   * Below a non-empty path a blank line issues nothing, a directory line one
   * operation and a file line two: its directory, then the file.
   */
  lemma PlaceCount(st: Stacks, line: string)
    requires |st.paths| == |st.indents| + 1 && NonEmptyPaths(st)
    ensures |Place(st, line).1| == if Strip(line) == "" then 0 else if IsFileLine(line) then 2 else 1
  {
    var content := Strip(line);
    if content != "" {
      var level := LeadingSpaces(line) / 2;
      PlaceItemProperties(st, level, content);
      var k := if |st.indents| > level then level else |st.indents|;
      assert st.paths[k] != "";
    }
  }

  /** Below a non-empty path, the operations after the base directory are one per non-blank line plus one per file line. */
  lemma {:induction false} RunCount(st: Stacks, lines: seq<string>, n: nat)
    requires |st.paths| == |st.indents| + 1 && n <= |lines| && NonEmptyPaths(st)
    ensures |RunFrom(st, lines, n).1| == |NonBlank(lines, n)| + |FileLines(lines, n)|
    decreases |lines| - n
  {
    if n < |lines| {
      PlaceShape(st, lines[n]);
      PlaceNonEmpty(st, lines[n]);
      RunCount(Place(st, lines[n]).0, lines, n + 1);
      PlaceCount(st, lines[n]);
      NonBlankStep(lines, n);
      FileLinesStep(lines, n);
    } else {
      assert NonBlank(lines, n) == {};
      assert FileLines(lines, n) == {};
    }
  }

  /**
   * An empty base path fails. Otherwise the base directory comes first, then
   * one operation per non-blank line and one more per file line; the stacks
   * that remain keep the base at the bottom with every directory joined under
   * the one below it.
   */
  lemma ParseProperties(text: string, base: string)
    ensures Parse(text, base).None? <==> base == ""
    ensures base != "" ==> Parse(text, base).value[0] == MakeDir(base)
    ensures var lines := SplitLines(Strip(text));
      base != "" ==> |Parse(text, base).value| == 1 + |NonBlank(lines, 0)| + |FileLines(lines, 0)|
    ensures var r := RunFrom(Stacks([], [base]), SplitLines(Strip(text)), 0).0;
      r.paths[0] == base && Chained(r)
  {
    if base != "" {
      RunCount(Stacks([], [base]), SplitLines(Strip(text)), 0);
    }
    RunChained(Stacks([], [base]), SplitLines(Strip(text)), 0);
  }

  /** The counting loop over the line's leading characters. */
  method CountLeadingSpaces(line: string) returns (spaces: nat)
    ensures spaces == LeadingSpaces(line)
  {
    spaces := 0;
    while spaces < |line| && line[spaces] == ' '
      invariant spaces <= LeadingSpaces(line)
    {
      spaces := spaces + 1;
    }
  }

  /** The popping loop: both stacks lose their tops until at most `level` indents remain. */
  method PopTo(indents: seq<nat>, paths: seq<string>, level: nat) returns (indents': seq<nat>, paths': seq<string>)
    requires |paths| == |indents| + 1
    ensures Stacks(indents', paths') == Popped(Stacks(indents, paths), level)
  {
    indents', paths' := indents, paths;
    while |indents'| > level
      invariant |paths'| == |indents'| + 1
      invariant Popped(Stacks(indents, paths), level) == Popped(Stacks(indents', paths'), level)
    {
      indents' := indents'[..|indents'| - 1];
      paths' := paths'[..|paths'| - 1];
    }
  }

  /** Running from line `n` is placing that line, then running from the next. */
  lemma RunFromStep(st: Stacks, lines: seq<string>, n: nat)
    requires n < |lines| && |st.paths| == |st.indents| + 1
    ensures |Place(st, lines[n]).0.paths| == |Place(st, lines[n]).0.indents| + 1
    ensures RunFrom(st, lines, n).1 == Place(st, lines[n]).1 + RunFrom(Place(st, lines[n]).0, lines, n + 1).1
  {
  }

  /** One pass of the loop body: the stacks after the line and the operation it issues, if any. */
  method PlaceLine(indents: seq<nat>, paths: seq<string>, line: string)
    returns (indents': seq<nat>, paths': seq<string>, issued: seq<Op>)
    requires |paths| == |indents| + 1
    ensures (Stacks(indents', paths'), issued) == Place(Stacks(indents, paths), line)
  {
    var content := Strip(line);
    if content == "" {
      return indents, paths, [];
    }
    var spaces := CountLeadingSpaces(line);
    indents', paths', issued := PlaceContent(indents, paths, spaces / 2, content);
  }

  /** A non-blank line at `level`: pop to it, then push the directory or create the file. */
  method PlaceContent(indents: seq<nat>, paths: seq<string>, level: nat, content: string)
    returns (indents': seq<nat>, paths': seq<string>, issued: seq<Op>)
    requires |paths| == |indents| + 1 && content != ""
    ensures (Stacks(indents', paths'), issued) == PlaceItem(Stacks(indents, paths), level, content)
  {
    indents', paths' := PopTo(indents, paths, level);
    var current := paths'[|paths'| - 1];
    if content[|content| - 1] == '/' {
      var dir := PathJoin(current, RStripSlash(content));
      issued := [MakeDir(dir)];
      indents' := indents' + [level];
      paths' := paths' + [dir];
    } else {
      var full := PathJoin(current, content);
      var parent := Dirname(full);
      issued := [];
      if parent != "" {
        issued := [MakeDir(parent)];
      }
      issued := issued + [CreateFile(full)];
    }
  }

  /** `parse_structure`: the base directory, then the loop over the lines of the stripped text. */
  method ParseStructure(text: string, base: string) returns (result: Option<seq<Op>>)
    ensures result == Parse(text, base)
  {
    if base == "" {
      return None;
    }
    var issued := RunLines(SplitLines(Strip(text)), base);
    result := Some([MakeDir(base)] + issued);
  }

  /** The loop of `parse_structure`, with the stacks kept as in the source and the operations collected. */
  method RunLines(lines: seq<string>, base: string) returns (ops: seq<Op>)
    ensures ops == RunFrom(Stacks([], [base]), lines, 0).1
  {
    ghost var whole := RunFrom(Stacks([], [base]), lines, 0).1;
    ops := [];
    var indentStack: seq<nat> := [];
    var pathStack: seq<string> := [base];
    var n := 0;
    while n < |lines|
      invariant n <= |lines| && |pathStack| == |indentStack| + 1
      invariant ops + RunFrom(Stacks(indentStack, pathStack), lines, n).1 == whole
    {
      RunFromStep(Stacks(indentStack, pathStack), lines, n);
      ghost var rest := RunFrom(Place(Stacks(indentStack, pathStack), lines[n]).0, lines, n + 1).1;
      var issued;
      indentStack, pathStack, issued := PlaceLine(indentStack, pathStack, lines[n]);
      Regroup(ops, issued, rest, whole);
      ops := ops + issued;
      n := n + 1;
    }
    assert RunFrom(Stacks(indentStack, pathStack), lines, n).1 == [];
  }
}
