// The command line make-runner hands to `make`: the platform's make command,
// the runner flags in a fixed order, the chosen tasks, and one assignment
// per option the user set.
module Run {
  import opened Wrappers
  import opened Strings
  import opened Utils
  import opened MakefileParser
  import opened CommandLine

  /** A parsed option value: text, or the boolean of a toggle. */
  datatype ArgValue = Text(text: string) | Switch(on: bool)

  /** The parsed command line. An option attribute that is absent from
      `values` is `None`. */
  datatype ParsedArgs = ParsedArgs(
    alwaysMake: bool, keepGoing: bool, dryRun: bool, silent: bool, touch: bool,
    makefile: Option<string>, jobs: Option<string>, loadAverage: Option<string>,
    tasks: seq<string>,
    values: map<string, ArgValue>)

  /** The boolean runner flags, in the order they are emitted. */
  const SwitchNames: seq<string> := ["always_make", "keep_going", "dry_run", "silent", "touch"]

  /** The runner flags that take a value, in the order they are emitted. */
  const ValuedNames: seq<string> := ["makefile", "jobs", "load_average"]

  /** `getattr(args, SwitchNames[i], False)`, for each `i`. */
  function Switches(args: ParsedArgs): (r: seq<bool>)
    ensures |r| == |SwitchNames|
  {
    [args.alwaysMake, args.keepGoing, args.dryRun, args.silent, args.touch]
  }

  /** `getattr(args, ValuedNames[i], None)`, for each `i`. */
  function ValuedArgs(args: ParsedArgs): (r: seq<Option<string>>)
    ensures |r| == |ValuedNames|
  {
    [args.makefile, args.jobs, args.loadAverage]
  }

  /** Python truthiness of a parsed value. */
  predicate Truthy(v: ArgValue) {
    match v
    case Text(s) => s != []
    case Switch(b) => b
  }

  /** `str` of a parsed value. */
  function Format(v: ArgValue): string
  {
    match v
    case Text(s) => s
    case Switch(b) => if b then "True" else "False"
  }

  /** The boolean runner flags spelled out, in the order of `SwitchNames`. */
  const SwitchFlags: seq<string> := ["--always-make", "--keep-going", "--dry-run", "--silent", "--touch"]

  /** `normalize_option_name` of each name, in argument form. */
  function ArgumentForms(names: seq<string>): (r: seq<string>)
    ensures |r| == |names| && forall i :: 0 <= i < |names| ==> r[i] == NormalizeOptionName(names[i], true)
  {
    seq(|names|, i requires 0 <= i < |names| => NormalizeOptionName(names[i], true))
  }

  /** The tokens whose switch is on, in order. */
  function Selected(on: seq<bool>, tokens: seq<string>): (r: seq<string>)
    requires |on| == |tokens|
    ensures |r| <= |tokens|
    ensures forall i :: 0 <= i < |on| && on[i] ==> tokens[i] in r
    ensures forall x :: x in r ==> exists i :: 0 <= i < |on| && on[i] && tokens[i] == x
  {
    if on == [] then []
    else
      var rest := Selected(on[1..], tokens[1..]);
      assert forall i :: 1 <= i < |on| && on[i] ==> tokens[i] in rest by {
        forall i | 1 <= i < |on| && on[i] ensures tokens[i] in rest {
          assert on[1..][i - 1] && tokens[1..][i - 1] == tokens[i];
        }
      }
      (if on[0] then [tokens[0]] else []) + rest
  }

  /** Selection keeps order: the tokens of a prefix come before those of the rest. */
  lemma {:induction false} SelectedAppend(on: seq<bool>, on': seq<bool>, tokens: seq<string>, tokens': seq<string>)
    requires |on| == |tokens| && |on'| == |tokens'|
    ensures Selected(on + on', tokens + tokens') == Selected(on, tokens) + Selected(on', tokens')
    decreases |on|
  {
    if on == [] {
      assert on + on' == on' && tokens + tokens' == tokens';
    } else {
      assert (on + on')[1..] == on[1..] + on';
      assert (tokens + tokens')[1..] == tokens[1..] + tokens';
      SelectedAppend(on[1..], on', tokens[1..], tokens');
    }
  }

  /** The runner's boolean flags that are set, in their fixed order. */
  function SwitchTokens(args: ParsedArgs): seq<string>
  {
    Selected(Switches(args), SwitchFlags)
  }

  /** The runner's valued flags that are present, each followed by its value;
      the makefile's value is the resolved path, not what the user typed. */
  function ValueTokens(args: ParsedArgs, path: string): seq<string>
  {
    (if args.makefile.Some? then ["--makefile", path] else [])
    + (if args.jobs.Some? then ["--jobs", args.jobs.value] else [])
    + (if args.loadAverage.Some? then ["--load-average", args.loadAverage.value] else [])
  }

  /** The value the user gave an option, looked up under its lowercased name. */
  function ValueOf(o: OptionRecord, values: map<string, ArgValue>): Option<ArgValue>
  {
    var key := NormalizeOptionName(o.name, false);
    if key in values then Some(values[key]) else None
  }

  /** The assignment one option contributes: `NAME=1` for a flag option set
      truthy, `NAME=value` for another option with a value, nothing otherwise. */
  function Assignment(o: OptionRecord, values: map<string, ArgValue>): seq<string>
  {
    var v := ValueOf(o, values);
    if o.flag.Some? then (if v.Some? && Truthy(v.value) then [o.name + "=1"] else [])
    else if v.Some? then [o.name + "=" + Format(v.value)]
    else []
  }

  /** The assignments of all options, in discovery order. */
  function Assignments(options: seq<OptionRecord>, values: map<string, ArgValue>): seq<string>
  {
    if options == [] then [] else Assignment(options[0], values) + Assignments(options[1..], values)
  }

  /** The whole invocation vector for make command `command`. */
  function Invocation(command: string, args: ParsedArgs, options: seq<OptionRecord>, path: string): seq<string>
  {
    [command] + SwitchTokens(args) + ValueTokens(args, path) + args.tasks + Assignments(options, args.values)
  }

  /** The boolean runner flags are spelled as `normalize_option_name` spells their names. */
  lemma SwitchFlagNames()
    ensures ArgumentForms(SwitchNames) == SwitchFlags
  {
    LongSwitchSpellings();
    ShortSwitchSpellings();
    var forms := ArgumentForms(SwitchNames);
    assert forms[0] == SwitchFlags[0] && forms[1] == SwitchFlags[1] && forms[2] == SwitchFlags[2];
    assert forms[3] == SwitchFlags[3] && forms[4] == SwitchFlags[4];
  }

  /** The first two boolean runner flags as `normalize_option_name` spells them. */
  lemma LongSwitchSpellings()
    ensures NormalizeOptionName("always_make", true) == "--always-make"
    ensures NormalizeOptionName("keep_going", true) == "--keep-going"
  {
    FlagSpelling("always_make", "--always-make");
    FlagSpelling("keep_going", "--keep-going");
  }

  /** The other three boolean runner flags as `normalize_option_name` spells them. */
  lemma ShortSwitchSpellings()
    ensures NormalizeOptionName("dry_run", true) == "--dry-run"
    ensures NormalizeOptionName("silent", true) == "--silent"
    ensures NormalizeOptionName("touch", true) == "--touch"
  {
    FlagSpelling("dry_run", "--dry-run");
    FlagSpelling("silent", "--silent");
    FlagSpelling("touch", "--touch");
  }

  /** The valued runner flags as `normalize_option_name` spells them. */
  lemma ValuedFlagNames()
    ensures NormalizeOptionName("makefile", true) == "--makefile"
    ensures NormalizeOptionName("jobs", true) == "--jobs"
    ensures NormalizeOptionName("load_average", true) == "--load-average"
  {
    FlagSpelling("makefile", "--makefile");
    FlagSpelling("jobs", "--jobs");
    FlagSpelling("load_average", "--load-average");
  }

  /** A name without upper-case letters becomes `--` and the name with `-` for `_`. */
  lemma FlagSpelling(name: string, flag: string)
    requires |flag| == |name| + 2 && flag[..2] == "--"
    requires forall i :: 0 <= i < |name| ==> !IsUpper(name[i]) && flag[i + 2] == if name[i] == '_' then '-' else name[i]
    ensures NormalizeOptionName(name, true) == flag
  {
    var r := NormalizeOptionName(name, true);
    assert r[2..] == flag[2..] by {
      forall i | 0 <= i < |name| ensures r[2..][i] == flag[2..][i] {
        assert Lower(name[i]) == name[i];
      }
    }
    assert r == r[..2] + r[2..] && flag == flag[..2] + flag[2..];
  }

  /** The first loop of `main`: the set boolean runner flags. */
  method AppendSwitches(runner: seq<string>, on: seq<bool>, names: seq<string>) returns (r: seq<string>)
    requires |on| == |names|
    ensures r == runner + Selected(on, ArgumentForms(names))
  {
    ghost var flags := ArgumentForms(names);
    r := runner;
    var i := 0;
    assert on[0..] == on && flags[0..] == flags;
    while i < |names|
      invariant 0 <= i <= |names|
      invariant r + Selected(on[i..], flags[i..]) == runner + Selected(on, flags)
    {
      ghost var before := r;
      ghost var rest := Selected(on[i + 1..], flags[i + 1..]);
      ghost var kept := if on[i] then [flags[i]] else [];
      if on[i] {
        r := r + [NormalizeOptionName(names[i], true)];
      }
      assert r == before + kept;
      SelectedFrom(on, flags, i);
      ConcatAssoc(before, kept, rest);
      i := i + 1;
    }
  }

  /** Selection from position `i` on: token `i` if its switch is on, then the rest. */
  lemma SelectedFrom(on: seq<bool>, tokens: seq<string>, i: nat)
    requires |on| == |tokens| && i < |on|
    ensures Selected(on[i..], tokens[i..]) == (if on[i] then [tokens[i]] else []) + Selected(on[i + 1..], tokens[i + 1..])
  {
    assert on[i..][1..] == on[i + 1..] && tokens[i..][1..] == tokens[i + 1..];
  }

  /** The second loop of `main`: the present valued runner flags. */
  method AppendValued(runner: seq<string>, args: ParsedArgs, path: string) returns (r: seq<string>)
    ensures r == runner + ValueTokens(args, path)
  {
    ValuedFlagNames();
    r := runner;
    var i := 0;
    while i < |ValuedNames|
      invariant 0 <= i <= |ValuedNames|
      invariant r == runner + ValuedPrefix(args, path, i)
    {
      var name := ValuedNames[i];
      var value := ValuedArgs(args)[i];
      if value.Some? {
        r := r + [NormalizeOptionName(name, true)];
        if name == "makefile" {
          r := r + [path];
        } else {
          r := r + [value.value];
        }
      }
      i := i + 1;
    }
  }

  /** The tokens of the first `n` valued runner flags. */
  function ValuedPrefix(args: ParsedArgs, path: string, n: nat): seq<string>
    requires n <= 3
  {
    (if n >= 1 && args.makefile.Some? then ["--makefile", path] else [])
    + (if n >= 2 && args.jobs.Some? then ["--jobs", args.jobs.value] else [])
    + (if n >= 3 && args.loadAverage.Some? then ["--load-average", args.loadAverage.value] else [])
  }

  /** The third loop of `main`: the option assignments. */
  method AppendAssignments(runner: seq<string>, options: seq<OptionRecord>, values: map<string, ArgValue>)
    returns (r: seq<string>)
    ensures r == runner + Assignments(options, values)
  {
    r := runner;
    var i := 0;
    assert options[0..] == options;
    while i < |options|
      invariant 0 <= i <= |options|
      invariant r + Assignments(options[i..], values) == runner + Assignments(options, values)
    {
      ghost var before := r;
      ghost var rest := Assignments(options[i + 1..], values);
      r := AppendAssignment(r, options[i], values);
      AssignmentsStep(options, i, values);
      ConcatAssoc(before, Assignment(options[i], values), rest);
      i := i + 1;
    }
    assert options[i..] == [];
  }

  lemma AssignmentsStep(options: seq<OptionRecord>, i: nat, values: map<string, ArgValue>)
    requires i < |options|
    ensures Assignments(options[i..], values) == Assignment(options[i], values) + Assignments(options[i + 1..], values)
  {
    assert options[i..][1..] == options[i + 1..];
  }

  /** One pass of the option loop of `main`. */
  method AppendAssignment(runner: seq<string>, option: OptionRecord, values: map<string, ArgValue>)
    returns (r: seq<string>)
    ensures r == runner + Assignment(option, values)
  {
    r := runner;
    var key := NormalizeOptionName(option.name, false);
    var value: Option<ArgValue> := if key in values then Some(values[key]) else None;
    if option.flag.Some? {
      if value.Some? && Truthy(value.value) {
        r := r + [option.name + "=1"];
      }
    } else if value.Some? {
      r := r + [option.name + "=" + Format(value.value)];
    }
  }

  /** Step 4 of `main`: the invocation vector, or the error of an unknown platform. */
  method BuildInvocation(system: string, args: ParsedArgs, options: seq<OptionRecord>, path: string)
    returns (r: Result<seq<string>, PlatformError>)
    ensures MakeCommand(system).Failure? ==> r == Failure(MakeCommand(system).error)
    ensures MakeCommand(system).Success? ==> r == Success(Invocation(MakeCommand(system).value, args, options, path))
  {
    var command := MakeCommand(system);
    if command.Failure? {
      return Failure(command.error);
    }
    var runner := [command.value];
    runner := AppendSwitches(runner, Switches(args), SwitchNames);
    SwitchFlagNames();
    runner := AppendValued(runner, args, path);
    runner := runner + args.tasks;
    runner := AppendAssignments(runner, options, args.values);
    return Success(runner);
  }

  // ---------------------------------------------------------------------
  // What the vector promises
  // ---------------------------------------------------------------------

  /** Each option contributes at most one token. */
  lemma {:induction false} AssignmentsBound(options: seq<OptionRecord>, values: map<string, ArgValue>)
    ensures |Assignments(options, values)| <= |options|
  {
    if options != [] {
      AssignmentsBound(options[1..], values);
    }
  }

  /** Options keep their discovery order: the assignments of consecutive
      option lists concatenate. */
  lemma {:induction false} AssignmentsAppend(a: seq<OptionRecord>, b: seq<OptionRecord>, values: map<string, ArgValue>)
    ensures Assignments(a + b, values) == Assignments(a, values) + Assignments(b, values)
  {
    if a == [] {
      assert a + b == b;
    } else {
      assert (a + b)[1..] == a[1..] + b;
      AssignmentsAppend(a[1..], b, values);
    }
  }

  /** The vector starts with the make command and is no longer than the
      command, five switches, three flag-and-value pairs, the tasks and one
      assignment per option. */
  lemma InvocationShape(command: string, args: ParsedArgs, options: seq<OptionRecord>, path: string)
    ensures var v := Invocation(command, args, options, path);
      && v[0] == command
      && |v| <= 1 + 5 + 6 + |args.tasks| + |options|
  {
    AssignmentsBound(options, args.values);
  }

  /** The tasks follow the runner flags unchanged and in the user's order. */
  lemma InvocationTasks(command: string, args: ParsedArgs, options: seq<OptionRecord>, path: string)
    ensures var v := Invocation(command, args, options, path);
      var k := 1 + |SwitchTokens(args)| + |ValueTokens(args, path)|;
      && k + |args.tasks| <= |v|
      && v[k..k + |args.tasks|] == args.tasks
      && v[k + |args.tasks|..] == Assignments(options, args.values)
  {
  }

  /** The makefile flag carries the resolved path, whatever the user typed. */
  lemma MakefileValueIsPath(args: ParsedArgs, path: string)
    requires args.makefile.Some?
    ensures |ValueTokens(args, path)| >= 2 && ValueTokens(args, path)[..2] == ["--makefile", path]
  {
  }

  /** A flag option emits `NAME=1` exactly when its value is truthy, and
      nothing otherwise. */
  lemma FlagAssignment(o: OptionRecord, values: map<string, ArgValue>)
    requires o.flag.Some?
    ensures Assignment(o, values) == [o.name + "=1"] <==> ValueOf(o, values).Some? && Truthy(ValueOf(o, values).value)
    ensures Assignment(o, values) == [] <==> !(ValueOf(o, values).Some? && Truthy(ValueOf(o, values).value))
  {
  }

  /** Another option emits `NAME=value` exactly when it has a value. */
  lemma ValueAssignment(o: OptionRecord, values: map<string, ArgValue>)
    requires o.flag.None?
    ensures ValueOf(o, values).Some? ==> Assignment(o, values) == [o.name + "=" + Format(ValueOf(o, values).value)]
    ensures ValueOf(o, values).None? <==> Assignment(o, values) == []
  {
  }

  /** `VERBOSE` as a flag option: `--verbose` gives `VERBOSE=1`, its absence nothing. */
  lemma VerboseExample(desc: string)
    ensures var o := OptionRecord("VERBOSE", Some(""), desc, Some("%FLAG%"));
      && Assignments([o], map["verbose" := Switch(true)]) == ["VERBOSE=1"]
      && Assignments([o], map["verbose" := Switch(false)]) == []
  {
    var o := OptionRecord("VERBOSE", Some(""), desc, Some("%FLAG%"));
    LowerName("VERBOSE", "verbose");
    assert [o][1..] == [];
    assert ValueOf(o, map["verbose" := Switch(true)]) == Some(Switch(true));
    assert "VERBOSE" + "=1" == "VERBOSE=1";
    assert ValueOf(o, map["verbose" := Switch(false)]) == Some(Switch(false));
  }

  /** `OUT_DIR` with default `build`: the default unless the user overrides it. */
  lemma OutDirExample(desc: string)
    ensures var o := OptionRecord("OUT_DIR", Some("build"), desc, None);
      && Assignments([o], map["out_dir" := Text("build")]) == ["OUT_DIR=build"]
      && Assignments([o], map["out_dir" := Text("dist")]) == ["OUT_DIR=dist"]
  {
    var o := OptionRecord("OUT_DIR", Some("build"), desc, None);
    LowerName("OUT_DIR", "out_dir");
    assert [o][1..] == [];
    assert ValueOf(o, map["out_dir" := Text("build")]) == Some(Text("build"));
    assert ValueOf(o, map["out_dir" := Text("dist")]) == Some(Text("dist"));
    assert "OUT_DIR" + "=" + "build" == "OUT_DIR=build";
    assert "OUT_DIR" + "=" + "dist" == "OUT_DIR=dist";
  }

  /** `-k -n test`: the tool, `--keep-going`, `--dry-run`, then `test`. */
  lemma KeepGoingDryRunExample(command: string, path: string)
    ensures var args := ParsedArgs(false, true, true, false, false, None, None, None, ["test"], map[]);
      Invocation(command, args, [], path) == [command, "--keep-going", "--dry-run", "test"]
  {
  }

  /** An option whose name starts with `_`: `_CACHE` is offered as the flag
      `---cache`, the parser stores its value under `cache`, and the lookup
      under `_cache` finds nothing, so the user's value never reaches `make`. */
  lemma UnderscoreOverrideLost(desc: string, v: ArgValue)
    ensures var o := OptionRecord("_CACHE", Some("x"), desc, None);
      var stored := Dest(FlagFor(o).argument);
      && stored == "cache"
      && NormalizeOptionName(o.name, false) == "_cache"
      && Assignments([o], map[stored := v]) == []
  {
    var o := OptionRecord("_CACHE", Some("x"), desc, None);
    UnderscoreNames();
    MissedLookup(o, "cache", v);
  }

  /** The two names `_CACHE` is known by: the parser's and the lookup's. */
  lemma UnderscoreNames()
    ensures Dest(NormalizeOptionName("_CACHE", true)) == "cache"
    ensures NormalizeOptionName("_CACHE", false) == "_cache"
  {
    var name := "_CACHE";
    SpanExact(name, IsUnderscore, 1);
    DestOfArgumentForm(name);
    assert name[1..] == "CACHE";
    LowerName("CACHE", "cache");
    LowerName(name, "_cache");
  }

  /** A value stored under a key other than the option's attribute name
      contributes nothing. */
  lemma MissedLookup(o: OptionRecord, key: string, v: ArgValue)
    requires key != NormalizeOptionName(o.name, false)
    ensures Assignments([o], map[key := v]) == []
  {
    assert [o][1..] == [];
  }

  lemma LowerName(name: string, lower: string)
    requires |name| == |lower|
    requires forall i :: 0 <= i < |name| ==> Lower(name[i]) == lower[i]
    ensures NormalizeOptionName(name, false) == lower
  {
  }
}
