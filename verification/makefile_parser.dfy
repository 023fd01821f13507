/**
 * make_runner/makefile_parser.py: the line classifier that mines `##`
 * annotations from a makefile, and the scan of `make -p` output for the
 * `MAKEFILE_LIST` declaration. The regular expressions are written out as
 * matcher functions. Lines are the file's lines without their terminators,
 * so no line holds a `\n` and the regular expressions' `.` matches every
 * character and `$` matches only at the end.
 */
module MakefileParser {
  import opened Wrappers
  import opened Strings
  import opened Utils

  /** A `{name, desc}` task record. */
  datatype Task = Task(name: string, desc: string)

  /** The groups of the description pattern: the `%FLAG%` marker, if present, and the text. */
  datatype OptionDesc = OptionDesc(flag: Option<string>, desc: string)

  /** The groups of the definition pattern. */
  datatype OptionDef = OptionDef(name: string, default: string)

  /** A `{name, default, desc, flag}` option record. */
  datatype OptionRecord = OptionRecord(name: string, default: Option<string>, desc: string, flag: Option<string>)

  const FlagMarker: string := "%FLAG%"

  /** `[a-zA-Z0-9_-]`, the characters of a task name. */
  predicate IsTaskNameChar(c: char) {
    'a' <= c <= 'z' || 'A' <= c <= 'Z' || '0' <= c <= '9' || c == '_' || c == '-'
  }

  /** `[a-zA-Z0-9_]`, the characters of a variable name. */
  predicate IsVarNameChar(c: char) {
    'a' <= c <= 'z' || 'A' <= c <= 'Z' || '0' <= c <= '9' || c == '_'
  }

  predicate AllTaskNameChars(s: string) {
    forall i :: 0 <= i < |s| ==> IsTaskNameChar(s[i])
  }

  predicate AllVarNameChars(s: string) {
    forall i :: 0 <= i < |s| ==> IsVarNameChar(s[i])
  }

  predicate IsPair(s: string, j: int)
    requires 0 <= j && j + 1 < |s|
  {
    s[j] == '#' && s[j + 1] == '#'
  }

  /** `s` holds no `##`. */
  predicate NoPair(s: string) {
    forall j :: 0 <= j && j + 1 < |s| ==> !IsPair(s, j)
  }

  /** Where the first `##` of `s` starts, as the lazy `.*?##` finds it. */
  function FirstPair(s: string): (r: Option<nat>)
    ensures r.Some? ==> r.value + 1 < |s| && IsPair(s, r.value) && NoPair(s[..r.value + 1])
    ensures r.None? ==> NoPair(s)
  {
    if |s| < 2 then None
    else if IsPair(s, 0) then Some(0)
    else
      var t := s[1..];
      assert forall j :: 1 <= j && j + 1 < |s| ==> (IsPair(s, j) <==> IsPair(t, j - 1));
      match FirstPair(t)
      case None => None
      case Some(j) =>
        assert NoPair(s[..j + 2]) by {
          var p := s[..j + 2];
          forall i | 0 <= i && i + 1 < |p| ensures !IsPair(p, i) {
            if i > 0 { assert !IsPair(t[..j + 1], i - 1); }
          }
        }
        Some(j + 1)
  }

  /** TASK_PATTERN `^(?P<name>[a-zA-Z0-9_-]+):.*?##\s*(?P<desc>.*)$`. */
  function MatchTask(line: string): (r: Option<Task>)
    ensures r.Some? ==>
      var n := |r.value.name|;
      && 0 < n < |line| && line[..n] == r.value.name && AllTaskNameChars(r.value.name) && line[n] == ':'
      && var k := FirstPair(line[n + 1..]);
         k.Some? && r.value.desc == DropSpaces(line[n + 1..][k.value + 2..])
  {
    var n := Span(line, IsTaskNameChar);
    if 0 < n < |line| && line[n] == ':' then TaskAfterColon(line[..n], line[n + 1..])
    else None
  }

  /** The rest of the task pattern after `name:`: everything up to the first
      `##`, then the description. */
  function TaskAfterColon(name: string, rest: string): (r: Option<Task>)
    ensures r.Some? <==> FirstPair(rest).Some?
    ensures r.Some? ==> r.value == Task(name, DropSpaces(rest[FirstPair(rest).value + 2..]))
  {
    match FirstPair(rest)
    case Some(k) => Some(Task(name, DropSpaces(rest[k + 2..])))
    case None => None
  }

  /** A line is not a task line exactly when no non-empty run of name
      characters at its start is followed by `:` and, later, by `##`. */
  lemma MatchTaskNone(line: string)
    requires MatchTask(line).None?
    ensures forall n :: 0 < n < |line| && AllTaskNameChars(line[..n]) && line[n] == ':' ==> NoPair(line[n + 1..])
  {
    var k := Span(line, IsTaskNameChar);
    forall n | 0 < n < |line| && AllTaskNameChars(line[..n]) && line[n] == ':'
      ensures NoPair(line[n + 1..])
    {
      assert n == k;
    }
  }

  /** A run of `p` characters followed by one that is not `p`, or by nothing. */
  lemma SpanUpTo(x: string, y: string, p: char -> bool)
    requires forall i :: 0 <= i < |x| ==> p(x[i])
    requires y != [] ==> !p(y[0])
    ensures Span(x + y, p) == |x|
  {
    SpanAppend(x, y, p);
  }

  /** The first `##` of `x + "##" + y` is the one after `x` when `x + "#"` holds none. */
  lemma FirstPairAfter(x: string, y: string)
    requires NoPair(x + "#")
    ensures FirstPair(x + "##" + y) == Some(|x|)
  {
    var s := x + "##" + y;
    assert IsPair(s, |x|);
    forall j | 0 <= j < |x| ensures !IsPair(s, j) {
      assert !IsPair(x + "#", j);
      assert (x + "#")[j] == s[j] && (x + "#")[j + 1] == s[j + 1];
    }
    var k := FirstPair(s);
    if k.value > |x| {
      assert IsPair(s[..k.value + 1], |x|);
    }
  }

  /** A line `name:` + `x` + `##` + `y`, where `x` starts no `##`, is a task
      named `name` (the whole leading run of name characters) whose
      description is `y` without its leading whitespace. */
  lemma MatchTaskOfForm(name: string, x: string, y: string)
    requires name != [] && AllTaskNameChars(name)
    requires NoPair(x + "#")
    ensures MatchTask(name + ":" + x + "##" + y) == Some(Task(name, DropSpaces(y)))
  {
    var rest := x + "##" + y;
    var line := name + (":" + rest);
    assert name + ":" + x + "##" + y == line;
    assert line[|name|] == ':';
    SpanUpTo(name, ":" + rest, IsTaskNameChar);
    assert line[|name| + 1..] == rest && line[..|name|] == name;
    MatchTaskAt(line, |name|);
    FirstPairAfter(x, y);
    assert rest[|x| + 2..] == y;
  }

  /** A line whose run of name characters ends at `n`, before a `:`, is
      matched by what follows the colon. */
  lemma MatchTaskAt(line: string, n: nat)
    requires 0 < n < |line| && Span(line, IsTaskNameChar) == n && line[n] == ':'
    ensures MatchTask(line) == TaskAfterColon(line[..n], line[n + 1..])
  {
  }

  /** OPTION_DESC_PATTERN `^##\s*(?P<flag>%FLAG%)?\s*(?P<desc>.*)$`. */
  function MatchOptionDesc(line: string): (r: Option<OptionDesc>)
    ensures r.Some? <==> |line| >= 2 && line[..2] == "##"
    ensures r.Some? ==>
      var u := DropSpaces(line[2..]);
      && (r.value.flag.Some? <==> |u| >= 6 && u[..6] == FlagMarker)
      && (r.value.flag.Some? ==> r.value.flag.value == FlagMarker && r.value.desc == DropSpaces(u[6..]))
      && (r.value.flag.None? ==> r.value.desc == u)
  {
    if |line| >= 2 && line[..2] == "##" then
      var u := DropSpaces(line[2..]);
      if |u| >= 6 && u[..6] == FlagMarker then Some(OptionDesc(Some(FlagMarker), DropSpaces(u[6..])))
      else Some(OptionDesc(None, u))
    else None
  }

  /** The text after an assignment operator `=` or `:=` at the start of `u`. */
  function Operand(u: string): (r: Option<string>)
    ensures r.Some? <==> (|u| >= 1 && u[0] == '=') || (|u| >= 2 && u[..2] == ":=")
    ensures r.Some? ==> u == "=" + r.value || u == ":=" + r.value
  {
    if |u| >= 1 && u[0] == '=' then Some(u[1..])
    else if |u| >= 2 && u[..2] == ":=" then Some(u[2..])
    else None
  }

  /** OPTION_DEF_PATTERN `^\s*(?P<name>[a-zA-Z0-9_]+)\s*:?=\s*(?P<default>.*?)?\s*$`.
      The lazy, optional default group always takes part in a match, so the
      default is a string, possibly empty, with the whitespace around it left out. */
  function MatchOptionDef(line: string): (r: Option<OptionDef>)
    ensures r.Some? ==>
      var t := DropSpaces(line);
      var n := |r.value.name|;
      && 0 < n <= |t| && t[..n] == r.value.name && AllVarNameChars(r.value.name)
      && (n < |t| ==> !IsVarNameChar(t[n]))
      && Operand(DropSpaces(t[n..])).Some?
      && r.value.default == Strip(Operand(DropSpaces(t[n..])).value)
    ensures r.None? ==>
      var t := DropSpaces(line);
      var n := Span(t, IsVarNameChar);
      n == 0 || Operand(DropSpaces(t[n..])).None?
    ensures r.Some? && r.value.default != [] ==>
      !IsSpace(r.value.default[0]) && !IsSpace(r.value.default[|r.value.default| - 1])
  {
    var t := DropSpaces(line);
    var n := Span(t, IsVarNameChar);
    if n == 0 then None
    else
      match Operand(DropSpaces(t[n..]))
      case Some(v) => Some(OptionDef(t[..n], Strip(v)))
      case None => None
  }

  /** A line that starts with a variable name: what follows the name decides. */
  lemma MatchOptionDefAfterName(name: string, rest: string)
    requires name != [] && AllVarNameChars(name)
    requires rest != [] ==> !IsVarNameChar(rest[0])
    ensures MatchOptionDef(name + rest) ==
      match Operand(DropSpaces(rest))
      case Some(v) => Some(OptionDef(name, Strip(v)))
      case None => None
  {
    var line := name + rest;
    SpanUpTo([], line, IsSpace);
    assert DropSpaces(line) == line;
    SpanUpTo(name, rest, IsVarNameChar);
    assert line[..|name|] == name && line[|name|..] == rest;
  }

  /** The definition pattern accepts `NAME = v` and `NAME := v`, with any
      whitespace around the operator, and its default is `v` stripped. */
  lemma MatchOptionDefAccepts(name: string, sp: string, op: string, v: string)
    requires name != [] && AllVarNameChars(name) && AllSpace(sp)
    requires op == "=" || op == ":="
    ensures MatchOptionDef(name + sp + op + v) == Some(OptionDef(name, Strip(v)))
  {
    var tail := op + v;
    assert name + sp + op + v == name + (sp + tail);
    assert (sp + tail)[0] == (if sp != [] then sp[0] else op[0]);
    SpanUpTo(sp, tail, IsSpace);
    MatchOptionDefAfterName(name, sp + tail);
    if op == "=" {
      assert tail[0] == '=' && tail[1..] == v;
    } else {
      assert tail[0] == ':' && tail[..2] == ":=" && tail[2..] == v;
    }
  }

  /** `?=` and `+=` are not definitions. */
  lemma MatchOptionDefRejects(name: string, sp: string, c: char, v: string)
    requires name != [] && AllVarNameChars(name) && AllSpace(sp)
    requires c == '?' || c == '+'
    ensures MatchOptionDef(name + sp + [c, '='] + v) == None
  {
    var tail := [c, '='] + v;
    assert name + sp + [c, '='] + v == name + (sp + tail);
    assert (sp + tail)[0] == (if sp != [] then sp[0] else c);
    SpanUpTo(sp, tail, IsSpace);
    MatchOptionDefAfterName(name, sp + tail);
  }

  /** The loop state of `read_makefile`: the records found so far and the
      pending `option` dict, empty or holding the groups of a description line. */
  datatype ParserState = ParserState(tasks: seq<Task>, options: seq<OptionRecord>, pending: Option<OptionDesc>)

  const Initial: ParserState := ParserState([], [], None)

  /** What a stripped line is: the patterns are tried in the order of
      `read_makefile`, task first, then description, then definition. */
  datatype LineKind = TaskLine(task: Task) | DescLine(desc: OptionDesc) | DefLine(def: OptionDef) | OtherLine

  /** A definition as the pattern captures it: a name of variable characters
      and a default without surrounding whitespace. */
  predicate WellFormedDef(d: OptionDef) {
    && d.name != [] && AllVarNameChars(d.name)
    && (d.default != [] ==> !IsSpace(d.default[0]) && !IsSpace(d.default[|d.default| - 1]))
  }

  function Classify(line: string): (r: LineKind)
    ensures r.TaskLine? <==> MatchTask(line).Some?
    ensures r.TaskLine? ==> MatchTask(line) == Some(r.task)
    ensures r.DescLine? <==> MatchTask(line).None? && MatchOptionDesc(line).Some?
    ensures r.DescLine? ==> MatchOptionDesc(line) == Some(r.desc)
    ensures r.DefLine? <==> MatchTask(line).None? && MatchOptionDesc(line).None? && MatchOptionDef(line).Some?
    ensures r.DefLine? ==> MatchOptionDef(line) == Some(r.def) && WellFormedDef(r.def)
  {
    match MatchTask(line)
    case Some(t) => TaskLine(t)
    case None =>
      match MatchOptionDesc(line)
      case Some(od) => DescLine(od)
      case None =>
        match MatchOptionDef(line)
        case Some(d) => DefLine(d)
        case None => OtherLine
  }

  /** The classification of every line of a file, each stripped first. */
  function Kinds(lines: seq<string>): (r: seq<LineKind>)
    ensures |r| == |lines|
    ensures forall i :: 0 <= i < |lines| ==> r[i] == Classify(Strip(lines[i]))
  {
    seq(|lines|, i requires 0 <= i < |lines| => Classify(Strip(lines[i])))
  }

  /** The body of the loop of `read_makefile` for one classified line. */
  function Step(st: ParserState, kind: LineKind): ParserState
  {
    match kind
    case TaskLine(t) => st.(tasks := st.tasks + [t])
    case DescLine(od) => st.(pending := Some(od))
    case DefLine(def) =>
      if st.pending.Some? then
        var od := st.pending.value;
        st.(options := st.options + [OptionRecord(def.name, Some(def.default), od.desc, od.flag)], pending := None)
      else st
    case OtherLine => st
  }

  /** The loop of `read_makefile` over the lines still to read. */
  function ParseFrom(kinds: seq<LineKind>, st: ParserState): ParserState
  {
    if kinds == [] then st else ParseFrom(kinds[1..], Step(st, kinds[0]))
  }

  /** What `read_makefile` returns for a file with these lines. */
  function Parse(lines: seq<string>): ParserState
  {
    ParseFrom(Kinds(lines), Initial)
  }

  /** The task records of the task lines, in line order. */
  function TaskLines(kinds: seq<LineKind>): seq<Task>
  {
    if kinds == [] then []
    else (if kinds[0].TaskLine? then [kinds[0].task] else []) + TaskLines(kinds[1..])
  }

  /** The number of description lines. */
  function DescLineCount(kinds: seq<LineKind>): nat
  {
    if kinds == [] then 0 else (if kinds[0].DescLine? then 1 else 0) + DescLineCount(kinds[1..])
  }

  /** A record completed from a well-formed definition line. */
  predicate WellFormedOption(o: OptionRecord) {
    o.default.Some? && WellFormedDef(OptionDef(o.name, o.default.value))
  }

  predicate AllWellFormed(options: seq<OptionRecord>) {
    forall i :: 0 <= i < |options| ==> WellFormedOption(options[i])
  }

  /** Every task line yields exactly one task record, in line order, whatever
      the option lines around it do. */
  lemma {:induction false} ParseTasks(kinds: seq<LineKind>, st: ParserState)
    ensures ParseFrom(kinds, st).tasks == st.tasks + TaskLines(kinds)
  {
    if kinds != [] {
      ParseTasks(kinds[1..], Step(st, kinds[0]));
    }
  }

  /** Options are only appended, and each needs a description line of its own. */
  lemma {:induction false} ParseOptionsBound(kinds: seq<LineKind>, st: ParserState)
    ensures var r := ParseFrom(kinds, st);
      && st.options <= r.options
      && |r.options| + (if r.pending.Some? then 1 else 0)
         <= |st.options| + (if st.pending.Some? then 1 else 0) + DescLineCount(kinds)
  {
    if kinds != [] {
      ParseOptionsBound(kinds[1..], Step(st, kinds[0]));
    }
  }

  /** Every option record carries the name and the stripped default of a definition line. */
  lemma {:induction false} ParseOptionsWellFormed(kinds: seq<LineKind>, st: ParserState)
    requires forall i :: 0 <= i < |kinds| && kinds[i].DefLine? ==> WellFormedDef(kinds[i].def)
    requires AllWellFormed(st.options)
    ensures AllWellFormed(ParseFrom(kinds, st).options)
  {
    if kinds != [] {
      var next := Step(st, kinds[0]);
      if kinds[0].DefLine? && st.pending.Some? {
        var d := kinds[0].def;
        assert WellFormedDef(d);
        var o := OptionRecord(d.name, Some(d.default), st.pending.value.desc, st.pending.value.flag);
        assert next.options == st.options + [o];
        assert WellFormedOption(o);
      }
      ParseOptionsWellFormed(kinds[1..], next);
    }
  }

  /** Lines that are neither description nor definition lines (task lines and
      unmatched lines) leave a pending description and the options as they are. */
  lemma {:induction false} PendingSurvives(kinds: seq<LineKind>, st: ParserState)
    requires forall i :: 0 <= i < |kinds| ==> kinds[i].TaskLine? || kinds[i].OtherLine?
    ensures ParseFrom(kinds, st).pending == st.pending
    ensures ParseFrom(kinds, st).options == st.options
  {
    if kinds != [] {
      assert kinds[0].TaskLine? || kinds[0].OtherLine?;
      PendingSurvives(kinds[1..], Step(st, kinds[0]));
    }
  }

  /** Without a pending description and without description lines, definition
      lines produce no option. */
  lemma {:induction false} DefinitionsNeedDescription(kinds: seq<LineKind>, st: ParserState)
    requires st.pending.None?
    requires forall i :: 0 <= i < |kinds| ==> !kinds[i].DescLine?
    ensures ParseFrom(kinds, st).options == st.options
  {
    if kinds != [] {
      assert !kinds[0].DescLine?;
      DefinitionsNeedDescription(kinds[1..], Step(st, kinds[0]));
    }
  }

  /** A later description line replaces the pending one wholesale, flag included. */
  lemma LaterDescriptionWins(st: ParserState, first: OptionDesc, second: OptionDesc)
    ensures ParseFrom([DescLine(first), DescLine(second)], st) == st.(pending := Some(second))
  {
    var kinds := [DescLine(first), DescLine(second)];
    var after := Step(st, DescLine(first));
    assert kinds[1..] == [DescLine(second)] && [DescLine(second)][1..] == [];
    assert ParseFrom(kinds, st) == ParseFrom([DescLine(second)], after);
    assert ParseFrom([DescLine(second)], after) == Step(after, DescLine(second));
  }

  /** A description line followed by a definition line completes one option
      from the groups of both and empties the pending state, whatever was
      pending before: a later description line overwrites an earlier one. */
  lemma DescriptionThenDefinition(st: ParserState, od: OptionDesc, d: OptionDef)
    ensures ParseFrom([DescLine(od), DefLine(d)], st) ==
      st.(options := st.options + [OptionRecord(d.name, Some(d.default), od.desc, od.flag)], pending := None)
  {
    var kinds := [DescLine(od), DefLine(d)];
    var pending := Step(st, DescLine(od));
    assert kinds[1..] == [DefLine(d)] && [DefLine(d)][1..] == [];
    assert ParseFrom(kinds, st) == ParseFrom([DefLine(d)], pending);
    assert ParseFrom([DefLine(d)], pending) == Step(pending, DefLine(d));
  }

  /** `read_makefile` over the lines of one file. */
  method ReadMakefile(lines: seq<string>) returns (tasks: seq<Task>, options: seq<OptionRecord>)
    ensures tasks == Parse(lines).tasks && options == Parse(lines).options
    ensures tasks == TaskLines(Kinds(lines))
    ensures |options| <= DescLineCount(Kinds(lines))
    ensures AllWellFormed(options)
  {
    ghost var kinds := Kinds(lines);
    tasks, options := [], [];
    var option: Option<OptionDesc> := None;
    var i := 0;
    while i < |lines|
      invariant 0 <= i <= |lines|
      invariant ParseFrom(kinds[i..], ParserState(tasks, options, option)) == Parse(lines)
    {
      ghost var before := ParserState(tasks, options, option);
      match Classify(Strip(lines[i])) {
        case TaskLine(t) =>
          tasks := tasks + [t];
        case DescLine(od) =>
          option := Some(od);
        case DefLine(def) =>
          if option.Some? {
            options := options + [OptionRecord(def.name, Some(def.default), option.value.desc, option.value.flag)];
            option := None;
          }
        case OtherLine =>
      }
      assert ParserState(tasks, options, option) == Step(before, kinds[i]);
      assert kinds[i..][1..] == kinds[i + 1..];
      i := i + 1;
    }
    assert kinds[i..] == [];
    ParseTasks(kinds, Initial);
    ParseOptionsBound(kinds, Initial);
    ParseOptionsWellFormed(kinds, Initial);
  }

  /** MAKEFILE_LIST_PATTERN `^MAKEFILE_LIST[\s]*:?=[\s]*.+?$`: the variable
      name, an `=` or `:=`, and at least one character after it. */
  predicate IsMakefileListLine(line: string) {
    && |line| >= 13 && line[..13] == "MAKEFILE_LIST"
    && match Operand(DropSpaces(line[13..]))
       case Some(v) => v != []
       case None => false
  }

  /** The file names of a declaration line: its whitespace-separated words
      without the first two (the variable name and the operator). */
  function ListedFiles(line: string): seq<string>
  {
    var words := SplitWords(NormalizeSpace(line));
    if |words| >= 2 then words[2..] else []
  }

  datatype ListError = DeclarationNotFound

  /** For each output line, whether it declares `MAKEFILE_LIST` once stripped. */
  function Declarations(lines: seq<string>): (r: seq<bool>)
    ensures |r| == |lines|
    ensures forall i :: 0 <= i < |lines| ==> r[i] == IsMakefileListLine(Strip(lines[i]))
  {
    seq(|lines|, i requires 0 <= i < |lines| => IsMakefileListLine(Strip(lines[i])))
  }

  /** The first marked index of `marks[from..]`, if any. */
  function FirstMarked(marks: seq<bool>, from: nat): (r: Option<nat>)
    requires from <= |marks|
    ensures r.Some? ==> from <= r.value < |marks| && marks[r.value] && forall j :: from <= j < r.value ==> !marks[j]
    ensures r.None? ==> forall j :: from <= j < |marks| ==> !marks[j]
    decreases |marks| - from
  {
    if from == |marks| then None
    else if marks[from] then Some(from)
    else FirstMarked(marks, from + 1)
  }

  /** What the scan of `get_makefile_list` yields for the output of `make -p`:
      the files of the first declaration line, or an error when there is none. */
  function MakefileListOf(stdout: string): Result<seq<string>, ListError>
  {
    var lines := Split(stdout, '\n');
    match FirstMarked(Declarations(lines), 0)
    case Some(i) => Success(ListedFiles(Strip(lines[i])))
    case None => Failure(DeclarationNotFound)
  }

  /** No line of `lines` declares `MAKEFILE_LIST`. */
  ghost predicate NoneDeclares(lines: seq<string>) {
    forall i :: 0 <= i < |lines| ==> !IsMakefileListLine(Strip(lines[i]))
  }

  /** Line `i` is the first of `lines` that declares `MAKEFILE_LIST`. */
  ghost predicate FirstDeclares(lines: seq<string>, i: nat) {
    && i < |lines| && IsMakefileListLine(Strip(lines[i]))
    && forall j :: 0 <= j < i ==> !IsMakefileListLine(Strip(lines[j]))
  }

  /** The scan fails exactly when no output line declares `MAKEFILE_LIST`;
      otherwise it lists the files of the first line that does. */
  lemma MakefileListOfFirst(stdout: string)
    ensures MakefileListOf(stdout).Failure? <==> NoneDeclares(Split(stdout, '\n'))
    ensures forall i: nat :: FirstDeclares(Split(stdout, '\n'), i) ==>
      MakefileListOf(stdout) == Success(ListedFiles(Strip(Split(stdout, '\n')[i])))
  {
    var lines := Split(stdout, '\n');
    NoDeclaration(lines);
    forall i: nat | FirstDeclares(lines, i)
      ensures MakefileListOf(stdout) == Success(ListedFiles(Strip(lines[i])))
    {
      FirstDeclarationAt(lines, i);
    }
  }

  /** The search finds nothing exactly when no line declares `MAKEFILE_LIST`. */
  lemma NoDeclaration(lines: seq<string>)
    ensures FirstMarked(Declarations(lines), 0).None? <==> NoneDeclares(lines)
  {
    var marks := Declarations(lines);
    var first := FirstMarked(marks, 0);
    if first.Some? {
      assert marks[first.value];
    } else {
      forall i | 0 <= i < |lines| ensures !IsMakefileListLine(Strip(lines[i])) {
        assert !marks[i];
      }
    }
  }

  /** A declaring line with none before it is the one the search finds. */
  lemma FirstDeclarationAt(lines: seq<string>, i: nat)
    requires FirstDeclares(lines, i)
    ensures FirstMarked(Declarations(lines), 0) == Some(i)
  {
    var marks := Declarations(lines);
    var first := FirstMarked(marks, 0);
    assert marks[i];
    assert first.Some?;
  }

  /** The for/else loop of `get_makefile_list` over the lines of the output. */
  method MakefileList(stdout: string) returns (r: Result<seq<string>, ListError>)
    ensures r == MakefileListOf(stdout)
  {
    var lines := Split(stdout, '\n');
    ghost var marks := Declarations(lines);
    var i := 0;
    while i < |lines|
      invariant 0 <= i <= |lines|
      invariant FirstMarked(marks, i) == FirstMarked(marks, 0)
    {
      var line := Strip(lines[i]);
      assert marks[i] == IsMakefileListLine(line);
      if IsMakefileListLine(line) {
        return Success(ListedFiles(line));
      }
      i := i + 1;
    }
    return Failure(DeclarationNotFound);
  }
}
