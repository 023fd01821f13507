# make-runner, modelled in Dafny

make-runner is a front end for `make`. It reads the makefiles a project
includes and collects two kinds of annotation:
- **Tasks**: a rule line `name: deps ## description`.
- **Options**: a `## description` comment line, optionally starting with the
  marker `%FLAG%`, followed by a variable definition `NAME = default` or
  `NAME := default`.

From these it builds a help banner and a command-line schema. It then runs
`make` with the chosen tasks and `NAME=value` overrides.

This project models the logic of that pipeline and proves what it promises:

- `strings.dfy` (module `Strings`) holds the pieces of Python's string
  library the code relies on:
  - the whitespace class;
  - `str.lower`, `str.strip`, `str.split(sep)`, `sep.join` and `str.split()`.
- `utils.dfy` (module `Utils`) holds:
  - `normalize_option_name`;
  - `normalize_space`, which collapses each whitespace run to one space
    without trimming;
  - the platform table of `make_command`, with the platform name as a
    parameter.
- `makefile_parser.dfy` (module `MakefileParser`) holds:
  - the task, option-description, option-definition and `MAKEFILE_LIST`
    patterns, as matcher functions;
  - `read_makefile` over a sequence of lines, as a method with a loop. It is
    specified by a fold over the line kinds. The pending option description
    is the only state carried between lines.
  - the output scan of `get_makefile_list`, as a method with a loop.
- `command_line.dfy` (module `CommandLine`) holds:
  - the word-wrap chunker `chunk_line` / `_chunk`. It has a recursive
    delimiter split and a character loop. Methods implement it; ghost
    functions specify it.
  - `colorize`;
  - the banner built in `parse_args`, with the `help` task appended and the
    name column padded;
  - the choice between a defaulted value flag, a boolean toggle and a plain
    value flag for each option.
- `run.dfy` (module `Run`) holds the invocation vector of `main`:
  - the make command;
  - the set boolean runner flags, in a fixed order;
  - the present valued runner flags, each followed by its value;
  - the chosen tasks;
  - the `NAME=1` / `NAME=value` overrides, in discovery order.
- `wrappers.dfy` holds `Option` and `Result`.

Conventions:
- Whitespace is Python's whitespace restricted to ASCII: codes 9-13 and
  28-32.
- Lower-casing is ASCII lower-casing.
- The lines handed to the parser are the lines of the file without their
  terminators.

## Model

| member | source | states |
|---|---|---|
| Strings.Lower | make_runner/utils.py:19 | the result is never an upper-case letter; upper-case letters move down by 32, everything else is kept |
| Strings.LowerStr | make_runner/utils.py:19 | same length, each character lower-cased in place |
| Strings.Span | make_runner/makefile_parser.py:14 | the longest prefix whose characters satisfy the predicate: all before it do, the next one does not |
| Strings.SpanBack | make_runner/makefile_parser.py:36 | the longest suffix whose characters satisfy the predicate: all in it do, the one before it does not |
| Strings.SpanExact | make_runner/makefile_parser.py:14 | a prefix whose characters all satisfy the predicate, followed by the end or by a character that does not, is the run |
| Strings.DropSpaces | make_runner/makefile_parser.py:14 | never longer than the input, and the result does not start with whitespace |
| Strings.DropSpacesSuffix | make_runner/makefile_parser.py:14 | the result is the suffix of the input left after a prefix made only of whitespace |
| Strings.Strip | make_runner/makefile_parser.py:36 | never longer than the input, and the result neither starts nor ends with whitespace |
| Strings.StripSlice | make_runner/makefile_parser.py:36 | the result is the slice of the input between a leading whitespace run (the whole run) and a trailing part made only of whitespace |
| Strings.Split | make_runner/makefile_parser.py:109 | at least one piece; no piece holds the separator; every piece character comes from the input; joining the pieces with the separator gives the input back |
| Strings.SplitWords | make_runner/makefile_parser.py:116 | every word is a non-empty run of non-whitespace |
| Strings.LeadingWord | make_runner/makefile_parser.py:116 | a string starting with non-whitespace starts with a non-empty word |
| Strings.SplitWordsFront | make_runner/makefile_parser.py:116 | the first word is the leading run of non-whitespace after the leading whitespace, and the others are the words of what follows it |
| Strings.FlattenFront | make_runner/makefile_parser.py:116 | concatenating words after a first word puts that word in front |
| Strings.TextAfterLeadingWord | make_runner/makefile_parser.py:116 | the non-whitespace characters of a string that starts with a word are the word, then those of the rest |
| Strings.SplitWordsText | make_runner/makefile_parser.py:116 | the words, concatenated in order, are exactly the non-whitespace characters of the input: nothing is lost, added or reordered |
| Strings.Text | make_runner/utils.py:34 | never longer, and made only of non-whitespace characters of the input |
| Strings.TextChar | make_runner/utils.py:34 | one character contributes itself exactly when it is not whitespace |
| Strings.TextOfSpaces | make_runner/utils.py:34 | an all-whitespace string has no non-whitespace characters |
| Strings.TextOfNoSpace | make_runner/utils.py:34 | a string without whitespace is its own non-whitespace text |
| Strings.TextAppend | make_runner/utils.py:34 | the non-whitespace characters of a concatenation are those of the first part, then those of the second |
| Strings.TextDropSpaces | make_runner/utils.py:34 | dropping a leading whitespace run does not change the non-whitespace characters |
| Strings.IndexOf | make_runner/makefile_parser.py:109 | the first occurrence of the separator: it is there and not earlier |
| Strings.JoinFront | make_runner/command_line.py:72 | a join of two or more parts is the first part, the delimiter, then the join of the rest |
| Utils.NormalizeOptionName | make_runner/utils.py:12-22 | argument form: `--` then each character lower-cased, with `_` turned into `-`; attribute form: each character lower-cased, same length |
| Utils.ArgumentFormShape | make_runner/utils.py:19-21 | the argument form starts with `--`, holds no `_` and no upper-case letter |
| Utils.AttributeFormIdempotent | make_runner/utils.py:19-22 | lower-casing the attribute form again changes nothing |
| Utils.ArgumentFormOfAttributeForm | make_runner/utils.py:19-21 | the argument form after its `--` is the attribute form with `_` replaced by `-` |
| Utils.NormalizeSpace | make_runner/utils.py:25-34 | never longer; empty exactly when the input is; the only whitespace is `' '`; no two adjacent whitespace characters; a leading or trailing run leaves a space there (no trimming) |
| Utils.NormalizeSpaceFixes | make_runner/utils.py:34 | a string that is already normalised is left unchanged |
| Utils.NormalizeSpaceIdempotent | make_runner/utils.py:34 | normalising twice is normalising once |
| Utils.NormalizeSpaceKeepsText | make_runner/utils.py:34 | the non-whitespace characters survive, in order |
| Utils.LeadingRun | make_runner/utils.py:9 | a leading whitespace run of any length becomes one space before the normalised rest |
| Utils.TextThenRest | make_runner/utils.py:34 | a non-whitespace character in front of two strings that normalise alike keeps them alike |
| Utils.LeadingRunThenText | make_runner/utils.py:34 | a whitespace run in front of two texts that normalise alike keeps them alike |
| Utils.SpaceRunsMerge | make_runner/utils.py:34 | whitespace runs after an all-whitespace prefix merge with it, whatever their length |
| Utils.NormalizeSpaceRunInvariant | make_runner/utils.py:34 | two inputs that differ only in the length or kind of one whitespace run normalise to the same string |
| Utils.SpanAppend | make_runner/utils.py:9 | the prefix run of a concatenation stops in the first part, or covers it and continues into the second |
| Utils.MakeCommand | make_runner/utils.py:37-46 | succeeds exactly for `darwin` and `linux` after lower-casing, with `make`; fails with the lower-cased name otherwise |
| Utils.MakeCommandIgnoresCase | make_runner/utils.py:46 | the lookup sees only the lower-cased platform name |
| MakefileParser.FirstPair | make_runner/makefile_parser.py:14 | the lazy `.*?##` finds the first `##`: there is one at the result and none starts before it |
| MakefileParser.MatchTask | make_runner/makefile_parser.py:14 | a match has a non-empty name of task characters followed by `:`; its description is what follows the first `##` after the colon, with leading whitespace dropped |
| MakefileParser.TaskAfterColon | make_runner/makefile_parser.py:14 | after the colon, the line matches exactly when it holds a `##`; the description starts after the first one |
| MakefileParser.MatchTaskNone | make_runner/makefile_parser.py:14 | when the pattern fails, no colon after a leading run of task characters is followed by a `##` |
| MakefileParser.MatchTaskAt | make_runner/makefile_parser.py:14 | when the run of task characters stops at a colon, the match is decided by the text after the colon |
| MakefileParser.MatchTaskOfForm | make_runner/makefile_parser.py:14 | `name:x##y` with `x` free of `##` yields the task `name` with `y`, leading whitespace dropped, as its description |
| MakefileParser.FirstPairAfter | make_runner/makefile_parser.py:14 | in `x##y` with no `##` inside `x#`, the first `##` is the one after `x` |
| MakefileParser.SpanUpTo | make_runner/makefile_parser.py:14 | a name run ends where the name characters end |
| MakefileParser.MatchOptionDesc | make_runner/makefile_parser.py:15 | matches exactly the lines starting with `##`; the flag is `%FLAG%` exactly when the marker follows, and the description is the rest with leading whitespace dropped |
| MakefileParser.Operand | make_runner/makefile_parser.py:17 | present exactly when the text starts with `=` or `:=`, and then it is the text after that operator |
| MakefileParser.MatchOptionDef | make_runner/makefile_parser.py:16-18 | a match has the maximal leading run of variable characters as its name, then `=` or `:=`, and the stripped rest as its default; a failure means no name or no such operator; a default never starts or ends with whitespace |
| MakefileParser.MatchOptionDefAfterName | make_runner/makefile_parser.py:16-18 | after a name, what follows decides the match |
| MakefileParser.MatchOptionDefAccepts | make_runner/makefile_parser.py:16-18 | `NAME = v` and `NAME := v`, with any whitespace before the operator, match with default `v` stripped |
| MakefileParser.MatchOptionDefRejects | make_runner/makefile_parser.py:16-18 | `NAME ?= v` and `NAME += v` do not match |
| MakefileParser.Classify | make_runner/makefile_parser.py:39-52 | the patterns are tried in order: a task line is never a description or a definition line, and a description line is never a definition line; a definition is well formed |
| MakefileParser.Kinds | make_runner/makefile_parser.py:35-36 | each line is stripped and then classified |
| MakefileParser.ParseTasks | make_runner/makefile_parser.py:39-42 | the tasks are exactly the task lines' records, in line order, appended to those already found |
| MakefileParser.ParseOptionsBound | make_runner/makefile_parser.py:32-56 | options are only appended, and records plus a pending description never outnumber the description lines |
| MakefileParser.ParseOptionsWellFormed | make_runner/makefile_parser.py:50-54 | every completed record has a default that is a string without surrounding whitespace |
| MakefileParser.PendingSurvives | make_runner/makefile_parser.py:39-51 | task lines and unmatched lines leave the pending description and the options as they are |
| MakefileParser.DefinitionsNeedDescription | make_runner/makefile_parser.py:50-51 | with nothing pending and no description line, definition lines add no option |
| MakefileParser.DescriptionThenDefinition | make_runner/makefile_parser.py:45-54 | a description then a definition append one record with the definition's name and default and the description's text and flag, and empty the pending state |
| MakefileParser.LaterDescriptionWins | make_runner/makefile_parser.py:45-48 | a second description line replaces the pending one, flag included |
| MakefileParser.ReadMakefile | make_runner/makefile_parser.py:22-56 | the loop returns the fold's tasks and options: the task lines in order, at most one option per description line, every option well formed |
| MakefileParser.Declarations | make_runner/makefile_parser.py:110-111 | marks exactly the lines that declare `MAKEFILE_LIST` once stripped |
| MakefileParser.FirstMarked | make_runner/makefile_parser.py:109-112 | the first marked index from a position on, and nothing marked before it; none means nothing is marked |
| MakefileParser.MakefileListOfFirst | make_runner/makefile_parser.py:109-116 | the scan fails exactly when no line declares `MAKEFILE_LIST`; otherwise it lists the words of the first declaring line, after the first two |
| MakefileParser.NoDeclaration | make_runner/makefile_parser.py:113-114 | the search finds nothing exactly when no line declares the variable |
| MakefileParser.FirstDeclarationAt | make_runner/makefile_parser.py:109-112 | a declaring line with none before it is the one the search stops at |
| MakefileParser.MakefileList | make_runner/makefile_parser.py:109-116 | the for/else loop returns what the scan specifies |
| CommandLine.FindDelim | make_runner/command_line.py:66-67 | the first delimiter, in iteration order, that occurs in the token; none when no delimiter occurs |
| CommandLine.SplitShrinks | make_runner/command_line.py:66-70 | every piece of a split lacks the delimiter it was split on, so the set of delimiters it holds strictly shrinks |
| CommandLine.ChunkParts | make_runner/command_line.py:68-71 | one chunked part per piece |
| CommandLine.ChunkedLeafCases | make_runner/command_line.py:74-89 | a token without delimiters is kept when `cur + len + 1 < width`, moved after a break with length `len` when `len < width`, and broken character by character otherwise |
| CommandLine.Chunk | make_runner/command_line.py:55-89 | `_chunk` returns the chunked text and the last line length that the recursive specification gives |
| CommandLine.ChunkPieces | make_runner/command_line.py:68-71 | the split loop chunks the pieces left to right, threading the line length through |
| CommandLine.ChunkToken | make_runner/command_line.py:74-89 | the leaf cases of `_chunk` |
| CommandLine.BreakChars | make_runner/command_line.py:81-89 | the character loop returns the broken text and the final length of the hard-break specification, under which a break goes before a character exactly when the running length plus one reaches the width, and the count then restarts at 0 |
| CommandLine.ChunkLineOf | make_runner/command_line.py:39-91 | `chunk_line` chunks the whitespace-normalised line from column 0 |
| CommandLine.EraseText | make_runner/command_line.py:76-77 | text without newlines holds no breaks |
| CommandLine.EraseBreak | make_runner/command_line.py:79 | a leading `"\n" + indent_str` is exactly one break |
| CommandLine.EraseChar | make_runner/command_line.py:87 | a character other than a newline is kept by erasure |
| CommandLine.EraseAppend | make_runner/command_line.py:85-87 | erasing breaks distributes over concatenation |
| CommandLine.HardBreakErases | make_runner/command_line.py:81-89 | the character loop only inserts breaks |
| CommandLine.ChunkLeafErases | make_runner/command_line.py:74-89 | a delimiter-free token only gains breaks |
| CommandLine.ErasesToTail | make_runner/command_line.py:69-71 | dropping the first part keeps the parts' erasures in step with the pieces |
| CommandLine.JoinErases | make_runner/command_line.py:72 | joining the chunked parts with the delimiter erases to the join of the pieces |
| CommandLine.ChunkedErases | make_runner/command_line.py:55-89 | `_chunk` only inserts breaks: erasing them gives the token back |
| CommandLine.ChunkPartsErase | make_runner/command_line.py:68-71 | every chunked part erases to its piece |
| CommandLine.ChunkLineOnlyBreaks | make_runner/command_line.py:39-91 | deleting every inserted `"\n" + indent_str` from `chunk_line`'s result gives `normalize_space(line)` |
| CommandLine.ChunkedBound | make_runner/command_line.py:55-89 | started inside the width, the running line length stays in `[0, width)` |
| CommandLine.ChunkPartsBound | make_runner/command_line.py:68-71 | the threaded line length stays in `[0, width)` across the pieces |
| CommandLine.HardBreakBound | make_runner/command_line.py:81-89 | the character loop keeps the running length in `[0, width)` |
| CommandLine.Spaces | make_runner/command_line.py:142 | a run of `n` spaces |
| CommandLine.Colorize | make_runner/command_line.py:94-103 | the text between the cyan escape sequence and the reset sequence |
| CommandLine.WithHelp | make_runner/command_line.py:145 | the tasks in order with `help` appended last |
| CommandLine.TaskChoices | make_runner/command_line.py:147 | the task names in order, followed by `help` |
| CommandLine.Padding | make_runner/command_line.py:155-158 | a name of at most 20 characters is padded with spaces up to column 24; a longer one is followed by a newline and 24 spaces |
| CommandLine.EntryLayout | make_runner/command_line.py:151-163 | an entry is two spaces, the coloured name, the padding, the chunked description (the normalised description with only breaks added) and a newline |
| CommandLine.ConcatSlices | make_runner/command_line.py:151-163 | each part of the five-part entry sits at its own offsets |
| CommandLine.EntriesAppend | make_runner/command_line.py:151 | the entries of two task lists concatenate |
| CommandLine.EntriesSingle | make_runner/command_line.py:151 | a one-task list yields that task's entry |
| CommandLine.EntriesSnoc | make_runner/command_line.py:151-163 | one more task adds its entry at the end |
| CommandLine.BannerStep | make_runner/command_line.py:151-163 | one pass of the banner loop appends the current task's entry |
| CommandLine.BannerLayout | make_runner/command_line.py:145-163 | the banner is the header, the tasks' entries in order, then the entry of `help` |
| CommandLine.HeaderText | make_runner/command_line.py:149-150 | the header written in two steps is `Available tasks:` and a newline |
| CommandLine.BuildBanner | make_runner/command_line.py:149-163 | the loop builds the header followed by one entry per task, in order |
| CommandLine.BuildEntry | make_runner/command_line.py:151-163 | one pass of the loop appends exactly the task's entry |
| CommandLine.FlagFor | make_runner/command_line.py:172-182 | the flag is the argument form of the name; a non-empty default gives a valued flag whose help ends in ` (default: X)`; otherwise a flag marker gives a toggle; otherwise a plain value flag |
| CommandLine.Dest | make_runner/command_line.py:173 | the parser's attribute name for a long flag: the flag without its whole leading run of `-`, with every other `-` turned into `_`; the name holds no `-` |
| CommandLine.ArgumentChar | make_runner/utils.py:19-21 | a character other than `-` becomes `-` in argument form exactly when it is `_`, and turning that `-` back into `_` gives its lower-cased form |
| CommandLine.ArgumentFormDashRun | make_runner/utils.py:19-21 | the leading `-` run of an argument form is the `--` plus one dash per leading `_` of the name |
| CommandLine.DestOfArgumentForm | make_runner/command_line.py:173 | the parser stores the argument form of a name without `-` under the attribute form of that name with its leading `_` run removed |
| CommandLine.DestPointwise | make_runner/command_line.py:173 | when each flag character after the `--` renames a name character as the argument form does, and the leading `-` run covers the name's leading `_` run, the parser's attribute is the lower-cased rest of the name |
| CommandLine.DestOfFlag | make_runner/command_line.py:172-182 | the same for the flag registered for an option |
| CommandLine.FlagDestIsAttributeName | make_runner/run.py:53-55 | for a name that does not start with `_`, the attribute the parser stores an option under is the attribute form `main` looks it up by |
| CommandLine.BuildSchema | make_runner/command_line.py:171-182 | one flag per option, in option order, each chosen by the rule |
| CommandLine.PlanArguments | make_runner/command_line.py:140-186 | `help` appended, the banner laid out, the choices derived and one flag per option |
| Run.Switches | make_runner/run.py:39-40 | one switch per boolean runner flag |
| Run.ValuedArgs | make_runner/run.py:42-43 | one value per valued runner flag |
| Run.ArgumentForms | make_runner/run.py:41 | each name in argument form |
| Run.Selected | make_runner/run.py:39-41 | never more tokens than candidates; every token whose switch is on is selected, and every selected token is one whose switch is on |
| Run.SelectedAppend | make_runner/run.py:39-41 | selecting from two consecutive lists gives the first list's selection, then the second's |
| Run.SelectedFrom | make_runner/run.py:39-41 | selection from a position on is the token there, if its switch is on, then the rest |
| Run.SwitchFlagNames | make_runner/run.py:39-41 | the boolean runner flags are `--always-make`, `--keep-going`, `--dry-run`, `--silent`, `--touch`, in that order |
| Run.LongSwitchSpellings | make_runner/run.py:39-41 | the argument forms of `always_make` and `keep_going` |
| Run.ShortSwitchSpellings | make_runner/run.py:39-41 | the argument forms of `dry_run`, `silent` and `touch` |
| Run.ValuedFlagNames | make_runner/run.py:42-44 | the valued runner flags are `--makefile`, `--jobs`, `--load-average` |
| Run.FlagSpelling | make_runner/utils.py:19-21 | a name without upper-case letters becomes `--` and the name with `-` for `_` |
| Run.AppendSwitches | make_runner/run.py:39-41 | the loop appends the argument forms of the set switches, in order |
| Run.AppendValued | make_runner/run.py:42-48 | the loop appends each present valued flag and then its value; for the makefile, the resolved path |
| Run.MakefileValueIsPath | make_runner/run.py:45-46 | the makefile flag is followed by the resolved path, not the user's text |
| Run.AppendAssignments | make_runner/run.py:51-62 | the loop appends each option's assignment, in discovery order |
| Run.AssignmentsStep | make_runner/run.py:51 | the assignments from position `i` on are option `i`'s, then the rest |
| Run.AppendAssignment | make_runner/run.py:52-62 | one pass of the option loop appends that option's assignment |
| Run.BuildInvocation | make_runner/run.py:37-62 | an unknown platform fails; otherwise the vector is the make command, the switches, the valued flags, the tasks and the assignments |
| Run.AssignmentsBound | make_runner/run.py:51-62 | each option contributes at most one token |
| Run.AssignmentsAppend | make_runner/run.py:51 | the assignments of consecutive option lists concatenate |
| Run.InvocationShape | make_runner/run.py:37-62 | the first element is the make command, and the length is at most 1 + 5 + 6 + the number of tasks + the number of options |
| Run.InvocationTasks | make_runner/run.py:50-62 | the chosen tasks follow the runner flags in the user's order, and the assignments come last |
| Run.FlagAssignment | make_runner/run.py:56-59 | a flag option yields `NAME=1` exactly when its value is truthy, and nothing otherwise |
| Run.ValueAssignment | make_runner/run.py:60-62 | a non-flag option yields `NAME=value` when it has a value, and nothing exactly when it has none |
| Run.LowerName | make_runner/run.py:53-55 | the lookup key is the name with each character lower-cased |
| Run.VerboseExample | make_runner/run.py:56-59 | a `%FLAG%` option `VERBOSE` gives `VERBOSE=1` when set and nothing when unset |
| Run.OutDirExample | make_runner/run.py:60-62 | option `OUT_DIR` gives `OUT_DIR=` and the value looked up under `out_dir` |
| Run.MissedLookup | make_runner/run.py:53-62 | a value stored under a key other than the option's attribute name contributes no assignment |
| Run.UnderscoreNames | make_runner/run.py:53-55 | `_CACHE` is stored by the parser under `cache` but looked up under `_cache` |
| Run.UnderscoreOverrideLost | make_runner/run.py:53-62 | the user's value for the option `_CACHE`, stored where the parser puts it, yields no assignment |
| Run.KeepGoingDryRunExample | make_runner/run.py:39-50 | `-k -n test` gives `[make, --keep-going, --dry-run, test]` |

## Left out

- `find_makefile` (`make_runner/makefile_parser.py:59-88`) is not part of this model. It walks the file system with `os.path.exists`, `os.path.samefile` and `os.chdir`.
- Opening the makefile in `read_makefile`: the model takes the file's lines, without their terminators.
- The `subprocess.run` call in `get_makefile_list`: the model takes the captured output of `make -p` as a string.
- `make_runner/run.py:27-31`, which reads every listed makefile and concatenates their tasks and options, is not modelled. It is file I/O around `ReadMakefile`.
- `os.chdir` and `os.execvp` in `main`: `BuildInvocation` returns the vector that would be executed.
- `platform.system()`: `MakeCommand` takes the platform name as a parameter.
- `shutil.get_terminal_size()`: the terminal width is a parameter.
- Argument parsing itself is not modelled: `ArgumentParser`, `parse_known_args`, `parse_args`, the help formatter, the `-h` exit and `parse_runner_args` / `add_runner_args`. The model covers the decisions fed into the parser (`PlanArguments`) and, in `run.dfy`, starts from an abstract parsed-arguments record. `Dest` states the parser's rule for naming the attribute of a long flag: drop the whole leading run of `-`, then turn every other `-` into `_`.
- The help string of the positional `tasks` argument (`{a, b, help}`) and its `metavar`/`default` settings are not modelled.
- The delimiter set of `parse_args` is iterated in an order Python does not fix. The chunker takes the delimiters as a sequence; `PlanArguments` only requires it to hold the six delimiters, in any order.
- `parse_args` appends `help` to the caller's task list in place. The model returns the extended list (`WithHelp`, `ArgumentPlan.tasks`) instead, so the aliasing is not captured.
- Python's Unicode whitespace (`\s`, `str.isspace`, `str.split()`) and Unicode `str.lower` are approximated by their ASCII parts.
- An option name made only of `_` gives a flag made only of `-`, which the argument parser rejects with `ValueError`. `FlagFor` and `Dest` do not model that error: `Dest` returns the empty name.
- `ChunkLine` and the banner functions are ghost specifications. The executable path is `ChunkLineOf`, `BuildEntry` and `BuildBanner`.

## Findings

| source | as written | input that shows it | evidently intended | confidence | as-written member | corrected member |
|---|---|---|---|---|---|---|
| make_runner/run.py:53-55 | the override is looked up under `normalize_option_name(name, argument=False)`, but the parser stores a flag `---x` (from a name `_X`) under `x`, because it drops every leading `-` | `## cache` then `_CACHE := x` in the makefile, `---cache y` on the command line: `y` is stored under `cache`, looked up under `_cache`, and `_CACHE=y` is never passed to `make` | the lookup key and the parser's attribute agree for every option | medium, not executed | Run.UnderscoreOverrideLost | CommandLine.FlagDestIsAttributeName |
