/**
 * The helpers of make_runner/utils.py: option-name normalisation, whitespace
 * collapsing and the platform table that names the make executable.
 */
module Utils {
  import opened Wrappers
  import opened Strings

  /** `normalize_option_name(name, argument)`: lower-cased; in argument form
      also prefixed with `--` and with every `_` turned into `-`. */
  function NormalizeOptionName(name: string, argument: bool): (r: string)
    ensures argument ==> |r| == |name| + 2 && r[..2] == "--"
    ensures argument ==> forall i :: 0 <= i < |name| ==>
      r[i + 2] == (if name[i] == '_' then '-' else Lower(name[i]))
    ensures !argument ==> |r| == |name| && forall i :: 0 <= i < |name| ==> r[i] == Lower(name[i])
  {
    var lowered := LowerStr(name);
    if argument then "--" + seq(|lowered|, i requires 0 <= i < |lowered| =>
      if lowered[i] == '_' then '-' else lowered[i])
    else lowered
  }

  /** The argument form is what a command-line parser accepts as a long flag. */
  lemma ArgumentFormShape(name: string)
    ensures var r := NormalizeOptionName(name, true);
      r[..2] == "--" && '_' !in r && forall c :: c in r ==> !IsUpper(c)
  {
    var r := NormalizeOptionName(name, true);
    forall c | c in r ensures c != '_' && !IsUpper(c) {
      var k :| 0 <= k < |r| && r[k] == c;
      if k >= 2 { assert r[k] == (if name[k - 2] == '_' then '-' else Lower(name[k - 2])); }
    }
  }

  /** The attribute form (`argument=False`) only lower-cases, so applying it twice changes nothing. */
  lemma AttributeFormIdempotent(name: string)
    ensures var once := NormalizeOptionName(name, false);
      NormalizeOptionName(once, false) == once
  {
    var once := NormalizeOptionName(name, false);
    var twice := NormalizeOptionName(once, false);
    assert forall i :: 0 <= i < |once| ==> twice[i] == once[i];
  }

  /** The argument form is the attribute form, prefixed and with `_` replaced. */
  lemma ArgumentFormOfAttributeForm(name: string)
    ensures var attr := NormalizeOptionName(name, false);
      var arg := NormalizeOptionName(name, true);
      arg[2..] == seq(|attr|, i requires 0 <= i < |attr| => if attr[i] == '_' then '-' else attr[i])
  {
  }

  /** `normalize_space(line)`: every maximal run of whitespace becomes one space. */
  function NormalizeSpace(s: string): (r: string)
    ensures |r| <= |s|
    ensures s == [] <==> r == []
    ensures s != [] ==> (IsSpace(r[0]) <==> IsSpace(s[0]))
    ensures s != [] ==> (IsSpace(r[|r| - 1]) <==> IsSpace(s[|s| - 1]))
    ensures forall i :: 0 <= i < |r| && IsSpace(r[i]) ==> r[i] == ' '
    ensures forall i, j :: 0 <= i < j < |r| && j == i + 1 ==> !(IsSpace(r[i]) && IsSpace(r[j]))
    decreases |s|
  {
    if s == [] then []
    else if !IsSpace(s[0]) then [s[0]] + NormalizeSpace(s[1..])
    else [' '] + NormalizeSpace(s[Span(s, IsSpace)..])
  }

  /** A string whose whitespace is single spaces only. */
  ghost predicate Normalized(s: string) {
    && (forall i :: 0 <= i < |s| && IsSpace(s[i]) ==> s[i] == ' ')
    && (forall i, j :: 0 <= i < j < |s| && j == i + 1 ==> !(IsSpace(s[i]) && IsSpace(s[j])))
  }

  /** A normalised string is left as it is. */
  lemma {:induction false} NormalizeSpaceFixes(s: string)
    requires Normalized(s)
    ensures NormalizeSpace(s) == s
    decreases |s|
  {
    if s != [] {
      assert Normalized(s[1..]);
      NormalizeSpaceFixes(s[1..]);
      if IsSpace(s[0]) {
        assert s[0] == ' ';
        assert Span(s, IsSpace) == 1 by {
          if |s| > 1 { assert !IsSpace(s[1]); }
        }
        assert NormalizeSpace(s) == [' '] + NormalizeSpace(s[1..]);
      } else {
        assert NormalizeSpace(s) == [s[0]] + NormalizeSpace(s[1..]);
      }
      assert s == [s[0]] + s[1..];
    }
  }

  lemma NormalizeSpaceIdempotent(s: string)
    ensures NormalizeSpace(NormalizeSpace(s)) == NormalizeSpace(s)
  {
    NormalizeSpaceFixes(NormalizeSpace(s));
  }

  /** Collapsing whitespace keeps every other character, in order. */
  lemma {:induction false} NormalizeSpaceKeepsText(s: string)
    ensures Text(NormalizeSpace(s)) == Text(s)
    decreases |s|
  {
    if s != [] {
      if !IsSpace(s[0]) {
        NormalizeSpaceKeepsText(s[1..]);
        assert NormalizeSpace(s)[1..] == NormalizeSpace(s[1..]);
      } else {
        var n := Span(s, IsSpace);
        NormalizeSpaceKeepsText(s[n..]);
        TextDropSpaces(s, n);
        assert NormalizeSpace(s)[1..] == NormalizeSpace(s[n..]);
      }
    }
  }

  /** How far `Span` reaches into a concatenation. */
  lemma {:induction false} SpanAppend(x: string, y: string, p: char -> bool)
    ensures Span(x + y, p) == if Span(x, p) < |x| then Span(x, p) else |x| + Span(y, p)
    decreases |x|
  {
    if x != [] {
      assert (x + y)[0] == x[0];
      if p(x[0]) {
        assert (x + y)[1..] == x[1..] + y;
        SpanAppend(x[1..], y, p);
      }
    } else {
      assert x + y == y;
    }
  }

  /** A string that starts with a whitespace run normalises to one space
      followed by whatever comes after the run. */
  lemma LeadingRun(x: string, t: string)
    requires x != [] && AllSpace(x)
    ensures NormalizeSpace(x + t) == [' '] + NormalizeSpace(DropSpaces(t))
  {
    SpanAppend(x, t, IsSpace);
    assert (x + t)[0] == x[0];
    assert (x + t)[|x| + Span(t, IsSpace)..] == DropSpaces(t);
  }

  /** A non-whitespace character in front of two strings that normalise alike
      keeps them alike. */
  lemma TextThenRest(c: char, y: string, z: string)
    requires !IsSpace(c) && NormalizeSpace(y) == NormalizeSpace(z)
    ensures NormalizeSpace([c] + y) == NormalizeSpace([c] + z)
  {
    assert ([c] + y)[1..] == y && ([c] + z)[1..] == z;
  }

  /** A whitespace run in front of two texts that normalise alike keeps them alike. */
  lemma LeadingRunThenText(x: string, y: string, z: string)
    requires x != [] && AllSpace(x)
    requires y != [] && !IsSpace(y[0]) && z != [] && !IsSpace(z[0])
    requires NormalizeSpace(y) == NormalizeSpace(z)
    ensures NormalizeSpace(x + y) == NormalizeSpace(x + z)
  {
    LeadingRun(x, y);
    LeadingRun(x, z);
    assert DropSpaces(y) == y && DropSpaces(z) == z;
  }

  /** Two whitespace runs that both start the string after an all-whitespace
      prefix merge with it into one run. */
  lemma SpaceRunsMerge(a: string, w: string, w': string, b: string)
    requires AllSpace(a) && w != [] && w' != [] && AllSpace(w) && AllSpace(w')
    ensures NormalizeSpace(a + w + b) == NormalizeSpace(a + w' + b)
  {
    assert AllSpace(a + w) && AllSpace(a + w');
    LeadingRun(a + w, b);
    LeadingRun(a + w', b);
  }

  /** Inputs that differ only in the length or kind of one whitespace run
      normalise to the same string. */
  lemma {:induction false} NormalizeSpaceRunInvariant(a: string, w: string, w': string, b: string)
    requires w != [] && w' != [] && AllSpace(w) && AllSpace(w')
    ensures NormalizeSpace(a + w + b) == NormalizeSpace(a + w' + b)
    decreases |a|
  {
    var k := Span(a, IsSpace);
    if k == |a| {
      SpaceRunsMerge(a, w, w', b);
    } else if k == 0 {
      assert a + w + b == [a[0]] + (a[1..] + w + b);
      assert a + w' + b == [a[0]] + (a[1..] + w' + b);
      NormalizeSpaceRunInvariant(a[1..], w, w', b);
      TextThenRest(a[0], a[1..] + w + b, a[1..] + w' + b);
    } else {
      var x := a[..k];
      var y := a[k..] + w + b;
      var z := a[k..] + w' + b;
      assert a + w + b == x + y;
      assert a + w' + b == x + z;
      assert y[0] == a[k] && z[0] == a[k];
      NormalizeSpaceRunInvariant(a[k..], w, w', b);
      LeadingRunThenText(x, y, z);
    }
  }

  datatype PlatformError = UnsupportedPlatform(system: string)

  /** `make_command()` with the platform name passed in: only Darwin and Linux
      (in any letter case) are known, and both run `make`. */
  function MakeCommand(system: string): (r: Result<string, PlatformError>)
    ensures r.Success? <==> LowerStr(system) == "darwin" || LowerStr(system) == "linux"
    ensures r.Success? ==> r.value == "make"
    ensures r.Failure? ==> r.error == UnsupportedPlatform(LowerStr(system))
  {
    var key := LowerStr(system);
    if key == "darwin" || key == "linux" then Success("make") else Failure(UnsupportedPlatform(key))
  }

  /** The lookup ignores letter case. */
  lemma MakeCommandIgnoresCase(system: string)
    ensures MakeCommand(system) == MakeCommand(LowerStr(system))
  {
    AttributeFormIdempotent(system);
  }
}
