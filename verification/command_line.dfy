// The help banner of make-runner: the word-wrap chunker that lays out task
// descriptions, the banner itself, and the decisions that turn annotated
// options into command-line flags.
module CommandLine {
  import opened Wrappers
  import opened Strings
  import opened Utils
  import opened MakefileParser

  // ---------------------------------------------------------------------
  // Word-wrap chunker (`chunk_line` and its inner `_chunk`)
  // ---------------------------------------------------------------------

  /** The delimiters of `delims` that occur in `token`; it shrinks strictly
      along every recursive call of the chunker. */
  ghost function DelimsIn(token: string, delims: seq<char>): set<char>
  {
    set d | d in delims && d in token
  }

  /** Each of `pieces` holds fewer of the delimiters than `outer`. */
  ghost predicate Shrinks(pieces: seq<string>, delims: seq<char>, outer: set<char>) {
    forall i :: 0 <= i < |pieces| ==> DelimsIn(pieces[i], delims) < outer
  }

  /** Splitting a token on a delimiter it holds leaves pieces that hold
      strictly fewer of the delimiters: the split delimiter is gone and no
      piece holds a character the token does not. */
  lemma SplitShrinks(token: string, d: char, delims: seq<char>)
    requires d in delims && d in token
    ensures Shrinks(Split(token, d), delims, DelimsIn(token, delims))
  {
    var pieces := Split(token, d);
    forall i | 0 <= i < |pieces| ensures DelimsIn(pieces[i], delims) < DelimsIn(token, delims) {
      assert d in DelimsIn(token, delims) && d !in DelimsIn(pieces[i], delims);
    }
  }

  /** The position of the first delimiter of `delims` that occurs in `token`,
      as the `for d in delimiters: if d in token` search finds it. */
  function FindDelim(token: string, delims: seq<char>): (r: Option<nat>)
    ensures r.Some? ==>
      && r.value < |delims| && delims[r.value] in token
      && forall j :: 0 <= j < r.value ==> delims[j] !in token
    ensures r.None? ==> forall j :: 0 <= j < |delims| ==> delims[j] !in token
  {
    if delims == [] then None
    else if delims[0] in token then Some(0)
    else
      match FindDelim(token, delims[1..])
      case Some(j) => Some(j + 1)
      case None => None
  }

  /** `_chunk(token, cur)`: the chunked text and the length of its last line.
      A token holding a delimiter is split on the first one, its pieces are
      chunked left to right with the line length threaded through, and the
      results are joined with the same delimiter. */
  ghost function Chunked(token: string, cur: int, width: int, delims: seq<char>, indent: string): (string, int)
    decreases DelimsIn(token, delims), 1, 0
  {
    match FindDelim(token, delims)
    case Some(k) =>
      var d := delims[k];
      SplitShrinks(token, d, delims);
      var r := ChunkParts(Split(token, d), cur, width, delims, indent, DelimsIn(token, delims));
      (Join(r.0, d), r.1)
    case None => ChunkLeaf(token, cur, width, indent)
  }

  /** A token without delimiters follows the leaf rule: kept when it fits
      after the running length, moved after a break when it fits a fresh
      line, broken character by character otherwise. */
  lemma ChunkedLeafCases(token: string, cur: int, width: int, delims: seq<char>, indent: string)
    requires forall j :: 0 <= j < |delims| ==> delims[j] !in token
    ensures cur + |token| + 1 < width ==> Chunked(token, cur, width, delims, indent) == (token, cur + |token| + 1)
    ensures cur + |token| + 1 >= width && |token| < width ==>
      Chunked(token, cur, width, delims, indent) == ("\n" + indent + token, |token|)
    ensures cur + |token| + 1 >= width && |token| >= width ==>
      Chunked(token, cur, width, delims, indent) == HardBreak(token, cur, width, indent)
  {
    assert FindDelim(token, delims).None?;
  }

  /** The pieces of a split token chunked one after the other. */
  ghost function ChunkParts(pieces: seq<string>, cur: int, width: int, delims: seq<char>, indent: string,
                            outer: set<char>): (r: (seq<string>, int))
    requires Shrinks(pieces, delims, outer)
    ensures |r.0| == |pieces|
    decreases outer, 0, |pieces|
  {
    if pieces == [] then ([], cur)
    else
      var first := Chunked(pieces[0], cur, width, delims, indent);
      var rest := ChunkParts(pieces[1..], first.1, width, delims, indent, outer);
      ([first.0] + rest.0, rest.1)
  }

  /** A token without delimiters: kept on the current line when it fits with
      its separator, moved to a fresh line when it fits there, and broken
      character by character otherwise. */
  function ChunkLeaf(token: string, cur: int, width: int, indent: string): (string, int)
  {
    var next := cur + |token| + 1;
    if next < width then (token, next)
    else if |token| < width then ("\n" + indent + token, |token|)
    else HardBreak(token, cur, width, indent)
  }

  /** The character loop: a break goes before a character exactly when the
      running length plus one reaches the width, and the count then restarts at 0. */
  function HardBreak(chars: string, cur: int, width: int, indent: string): (string, int)
  {
    if chars == [] then ("", cur)
    else
      var next := cur + 1;
      var brk := if next >= width then "\n" + indent else "";
      var rest := HardBreak(chars[1..], if next >= width then 0 else next, width, indent);
      (brk + [chars[0]] + rest.0, rest.1)
  }

  /** `chunk_line`: the whitespace-normalised line chunked from column 0. */
  ghost function ChunkLine(line: string, width: int, delims: seq<char>, indent: string): string
  {
    Chunked(NormalizeSpace(line), 0, width, delims, indent).0
  }

  /** `_chunk`: the delimiter search, then the split-and-join recursion or,
      for a token without delimiters, the leaf cases. */
  method Chunk(token: string, cur: int, width: int, delims: seq<char>, indent: string)
    returns (chunked: string, lineLen: int)
    ensures (chunked, lineLen) == Chunked(token, cur, width, delims, indent)
    decreases DelimsIn(token, delims), 1, 0
  {
    var k := 0;
    while k < |delims| && delims[k] !in token
      invariant 0 <= k <= |delims|
      invariant forall j :: 0 <= j < k ==> delims[j] !in token
    {
      k := k + 1;
    }
    if k == |delims| {
      assert FindDelim(token, delims).None?;
      chunked, lineLen := ChunkToken(token, cur, width, indent);
    } else {
      var d := delims[k];
      assert FindDelim(token, delims) == Some(k);
      SplitShrinks(token, d, delims);
      var parts;
      parts, lineLen := ChunkPieces(Split(token, d), cur, width, delims, indent, DelimsIn(token, delims));
      chunked := Join(parts, d);
    }
  }

  /** The loop over the pieces of a split token, collecting `subtokens`. */
  method ChunkPieces(pieces: seq<string>, cur: int, width: int, delims: seq<char>, indent: string,
                     ghost outer: set<char>)
    returns (parts: seq<string>, lineLen: int)
    requires Shrinks(pieces, delims, outer)
    ensures (parts, lineLen) == ChunkParts(pieces, cur, width, delims, indent, outer)
    decreases outer, 0, 0
  {
    parts, lineLen := [], cur;
    ghost var whole := ChunkParts(pieces, cur, width, delims, indent, outer);
    var i := 0;
    assert pieces[0..] == pieces;
    while i < |pieces|
      invariant 0 <= i <= |pieces|
      invariant parts + ChunkParts(pieces[i..], lineLen, width, delims, indent, outer).0 == whole.0
      invariant ChunkParts(pieces[i..], lineLen, width, delims, indent, outer).1 == whole.1
    {
      assert DelimsIn(pieces[i], delims) < outer;
      var c, n := Chunk(pieces[i], lineLen, width, delims, indent);
      ghost var rest := ChunkParts(pieces[i + 1..], n, width, delims, indent, outer);
      assert pieces[i..][1..] == pieces[i + 1..];
      assert ChunkParts(pieces[i..], lineLen, width, delims, indent, outer) == ([c] + rest.0, rest.1);
      assert parts + ([c] + rest.0) == (parts + [c]) + rest.0;
      parts := parts + [c];
      lineLen := n;
      i := i + 1;
    }
    assert pieces[i..] == [];
    assert parts == whole.0 && lineLen == whole.1;
  }

  /** `_chunk` on a token without delimiters. */
  method ChunkToken(token: string, cur: int, width: int, indent: string) returns (chunked: string, lineLen: int)
    ensures (chunked, lineLen) == ChunkLeaf(token, cur, width, indent)
  {
    var next := cur + |token| + 1;
    if next < width {
      return token, next;
    } else if |token| < width {
      return "\n" + indent + token, |token|;
    }
    chunked, lineLen := BreakChars(token, cur, width, indent);
  }

  /** The character loop of `_chunk`. */
  method BreakChars(token: string, cur: int, width: int, indent: string) returns (chunked: string, lineLen: int)
    ensures (chunked, lineLen) == HardBreak(token, cur, width, indent)
  {
    chunked, lineLen := "", cur;
    ghost var whole := HardBreak(token, cur, width, indent);
    var i := 0;
    assert token[0..] == token;
    while i < |token|
      invariant 0 <= i <= |token|
      invariant chunked + HardBreak(token[i..], lineLen, width, indent).0 == whole.0
      invariant HardBreak(token[i..], lineLen, width, indent).1 == whole.1
    {
      ghost var before := chunked;
      var next := lineLen + 1;
      var brk := "";
      if next >= width {
        brk := "\n" + indent;
        next := 0;
      }
      ghost var rest := HardBreak(token[i + 1..], next, width, indent);
      assert token[i..][1..] == token[i + 1..] && token[i..][0] == token[i];
      assert HardBreak(token[i..], lineLen, width, indent) == (brk + [token[i]] + rest.0, rest.1);
      chunked := chunked + brk + [token[i]];
      assert before + (brk + [token[i]] + rest.0) == chunked + rest.0;
      lineLen := next;
      i := i + 1;
    }
    assert token[i..] == [];
    assert chunked == whole.0 && lineLen == whole.1;
  }

  /** `chunk_line`. */
  method ChunkLineOf(line: string, width: int, delims: seq<char>, indent: string) returns (r: string)
    ensures r == ChunkLine(line, width, delims, indent)
  {
    var lineLen;
    r, lineLen := Chunk(NormalizeSpace(line), 0, width, delims, indent);
  }

  // ---------------------------------------------------------------------
  // What the chunker promises
  // ---------------------------------------------------------------------

  /** `s` with every break, a newline followed by `indent`, taken out. */
  function Erase(s: string, indent: string): string
    decreases |s|
  {
    if s == [] then []
    else if s[0] == '\n' && |indent| < |s| && s[1..|indent| + 1] == indent then Erase(s[|indent| + 1..], indent)
    else [s[0]] + Erase(s[1..], indent)
  }

  /** `s` is made of characters other than a newline and of whole breaks. */
  predicate Broken(s: string, indent: string)
    decreases |s|
  {
    if s == [] then true
    else if s[0] != '\n' then Broken(s[1..], indent)
    else |indent| < |s| && s[1..|indent| + 1] == indent && Broken(s[|indent| + 1..], indent)
  }

  /** Text without newlines is its own erasure. */
  lemma {:induction false} EraseText(t: string, indent: string)
    requires '\n' !in t
    ensures Broken(t, indent) && Erase(t, indent) == t
    decreases |t|
  {
    if t != [] {
      EraseText(t[1..], indent);
      assert t == [t[0]] + t[1..];
    }
  }

  /** A break in front of broken text is erased. */
  lemma EraseBreak(t: string, indent: string)
    ensures var s := "\n" + indent + t;
      Broken(s, indent) == Broken(t, indent) && Erase(s, indent) == Erase(t, indent)
  {
    var s := "\n" + indent + t;
    assert s[1..|indent| + 1] == indent && s[|indent| + 1..] == t;
  }

  /** Erasure distributes over a broken prefix, and broken texts concatenate. */
  lemma {:induction false} EraseAppend(a: string, b: string, indent: string)
    requires Broken(a, indent)
    ensures Erase(a + b, indent) == Erase(a, indent) + Erase(b, indent)
    ensures Broken(b, indent) ==> Broken(a + b, indent)
    decreases |a|
  {
    if a == [] {
      assert a + b == b;
    } else {
      var s := a + b;
      if a[0] != '\n' {
        assert s[0] == a[0] && s[1..] == a[1..] + b;
        EraseAppend(a[1..], b, indent);
        assert Erase(s, indent) == [a[0]] + Erase(a[1..] + b, indent);
        assert Erase(a, indent) == [a[0]] + Erase(a[1..], indent);
      } else {
        var m := |indent| + 1;
        assert |indent| < |a| && a[1..m] == indent;
        assert s[1..m] == a[1..m] && s[m..] == a[m..] + b;
        EraseAppend(a[m..], b, indent);
        assert Erase(s, indent) == Erase(a[m..] + b, indent);
        assert Erase(a, indent) == Erase(a[m..], indent);
      }
    }
  }

  /** A character other than a newline is kept by erasure. */
  lemma EraseChar(c: char, t: string, indent: string)
    requires c != '\n'
    ensures Broken([c] + t, indent) == Broken(t, indent) && Erase([c] + t, indent) == [c] + Erase(t, indent)
  {
    var s := [c] + t;
    assert s[0] == c && s[1..] == t;
  }

  /** The character loop only inserts breaks. */
  lemma {:induction false} HardBreakErases(chars: string, cur: int, width: int, indent: string)
    requires '\n' !in chars
    ensures var r := HardBreak(chars, cur, width, indent).0;
      Broken(r, indent) && Erase(r, indent) == chars
    decreases |chars|
  {
    if chars != [] {
      var c := chars[0];
      var next := cur + 1;
      var n := if next >= width then 0 else next;
      var rest := HardBreak(chars[1..], n, width, indent).0;
      assert c != '\n' && '\n' !in chars[1..];
      var kept := [c] + rest;
      assert Broken(kept, indent) && Erase(kept, indent) == chars by {
        HardBreakErases(chars[1..], n, width, indent);
        EraseChar(c, rest, indent);
        assert [c] + chars[1..] == chars;
      }
      if next >= width {
        assert HardBreak(chars, cur, width, indent).0 == "\n" + indent + kept;
        EraseBreak(kept, indent);
      } else {
        assert HardBreak(chars, cur, width, indent).0 == kept;
      }
    }
  }

  /** A leaf token only gains breaks. */
  lemma ChunkLeafErases(token: string, cur: int, width: int, indent: string)
    requires '\n' !in token
    ensures var r := ChunkLeaf(token, cur, width, indent).0;
      Broken(r, indent) && Erase(r, indent) == token
  {
    EraseText(token, indent);
    EraseBreak(token, indent);
    HardBreakErases(token, cur, width, indent);
  }

  /** Each of `parts` is broken text that erases to the matching piece. */
  ghost predicate ErasesTo(parts: seq<string>, pieces: seq<string>, indent: string) {
    |parts| == |pieces| && forall i :: 0 <= i < |parts| ==> Broken(parts[i], indent) && Erase(parts[i], indent) == pieces[i]
  }

  lemma ErasesToTail(parts: seq<string>, pieces: seq<string>, indent: string)
    requires ErasesTo(parts, pieces, indent) && parts != []
    ensures ErasesTo(parts[1..], pieces[1..], indent)
    ensures Broken(parts[0], indent) && Erase(parts[0], indent) == pieces[0]
  {
    forall i | 0 <= i < |parts| - 1
      ensures Broken(parts[1..][i], indent) && Erase(parts[1..][i], indent) == pieces[1..][i]
    {
      assert parts[1..][i] == parts[i + 1] && pieces[1..][i] == pieces[i + 1];
    }
  }

  /** Joining broken parts with a delimiter other than a newline gives broken
      text whose erasure is the join of the erasures. */
  lemma {:induction false} JoinErases(parts: seq<string>, pieces: seq<string>, d: char, indent: string)
    requires d != '\n' && ErasesTo(parts, pieces, indent)
    ensures Broken(Join(parts, d), indent) && Erase(Join(parts, d), indent) == Join(pieces, d)
    decreases |parts|
  {
    if |parts| == 1 {
      ErasesToTail(parts, pieces, indent);
    } else if |parts| > 1 {
      ErasesToTail(parts, pieces, indent);
      var tail := Join(parts[1..], d);
      JoinErases(parts[1..], pieces[1..], d, indent);
      EraseChar(d, tail, indent);
      EraseAppend(parts[0], [d] + tail, indent);
      JoinFront(parts, d);
      JoinFront(pieces, d);
    }
  }

  /** Chunking only inserts breaks: erasing them gives the token back. */
  lemma {:induction false} ChunkedErases(token: string, cur: int, width: int, delims: seq<char>, indent: string)
    requires '\n' !in token
    ensures var r := Chunked(token, cur, width, delims, indent).0;
      Broken(r, indent) && Erase(r, indent) == token
    decreases DelimsIn(token, delims), 1, 0
  {
    match FindDelim(token, delims)
    case Some(k) =>
      var d := delims[k];
      SplitShrinks(token, d, delims);
      var pieces := Split(token, d);
      var outer := DelimsIn(token, delims);
      ChunkPartsErase(pieces, cur, width, delims, indent, outer, token);
      var parts := ChunkParts(pieces, cur, width, delims, indent, outer).0;
      JoinErases(parts, pieces, d, indent);
    case None =>
      ChunkLeafErases(token, cur, width, indent);
  }

  /** Every chunked piece erases back to its piece. */
  lemma {:induction false} ChunkPartsErase(pieces: seq<string>, cur: int, width: int, delims: seq<char>, indent: string,
                                           outer: set<char>, token: string)
    requires Shrinks(pieces, delims, outer)
    requires forall i, c :: 0 <= i < |pieces| && c in pieces[i] ==> c in token
    requires '\n' !in token
    ensures ErasesTo(ChunkParts(pieces, cur, width, delims, indent, outer).0, pieces, indent)
    decreases outer, 0, |pieces|
  {
    if pieces != [] {
      var first := Chunked(pieces[0], cur, width, delims, indent);
      ChunkedErases(pieces[0], cur, width, delims, indent);
      ChunkPartsErase(pieces[1..], first.1, width, delims, indent, outer, token);
      var rest := ChunkParts(pieces[1..], first.1, width, delims, indent, outer).0;
      var parts := ChunkParts(pieces, cur, width, delims, indent, outer).0;
      assert parts == [first.0] + rest;
      forall i | 0 < i < |pieces| ensures Broken(parts[i], indent) && Erase(parts[i], indent) == pieces[i] {
        assert parts[i] == rest[i - 1] && pieces[i] == pieces[1..][i - 1];
      }
    }
  }

  /** Deleting every inserted break from `chunk_line`'s result gives back
      the whitespace-normalised line. */
  lemma ChunkLineOnlyBreaks(line: string, width: int, delims: seq<char>, indent: string)
    ensures Erase(ChunkLine(line, width, delims, indent), indent) == NormalizeSpace(line)
  {
    var t := NormalizeSpace(line);
    assert '\n' !in t by {
      forall i | 0 <= i < |t| ensures t[i] != '\n' {
        if IsSpace(t[i]) { assert t[i] == ' '; }
      }
    }
    ChunkedErases(t, 0, width, delims, indent);
  }

  /** Started inside the width, the chunker ends inside it: the running line
      length stays in `[0, width)`. */
  lemma {:induction false} ChunkedBound(token: string, cur: int, width: int, delims: seq<char>, indent: string)
    requires 0 <= cur < width
    ensures var n := Chunked(token, cur, width, delims, indent).1; 0 <= n < width
    decreases DelimsIn(token, delims), 1, 0
  {
    match FindDelim(token, delims)
    case Some(k) =>
      var d := delims[k];
      SplitShrinks(token, d, delims);
      ChunkPartsBound(Split(token, d), cur, width, delims, indent, DelimsIn(token, delims));
    case None =>
      HardBreakBound(token, cur, width, indent);
  }

  lemma {:induction false} ChunkPartsBound(pieces: seq<string>, cur: int, width: int, delims: seq<char>, indent: string,
                                           outer: set<char>)
    requires Shrinks(pieces, delims, outer)
    requires 0 <= cur < width
    ensures var n := ChunkParts(pieces, cur, width, delims, indent, outer).1; 0 <= n < width
    decreases outer, 0, |pieces|
  {
    if pieces != [] {
      ChunkedBound(pieces[0], cur, width, delims, indent);
      var first := Chunked(pieces[0], cur, width, delims, indent);
      ChunkPartsBound(pieces[1..], first.1, width, delims, indent, outer);
    }
  }

  lemma {:induction false} HardBreakBound(chars: string, cur: int, width: int, indent: string)
    requires 0 <= cur < width
    ensures var n := HardBreak(chars, cur, width, indent).1; 0 <= n < width
    decreases |chars|
  {
    if chars != [] {
      var next := cur + 1;
      HardBreakBound(chars[1..], if next >= width then 0 else next, width, indent);
    }
  }

  // ---------------------------------------------------------------------
  // Help banner (`parse_args`, building `task_descriptions`)
  // ---------------------------------------------------------------------

  const Indent: nat := 2
  const ContentIndent: nat := 24
  const MaxTaskNameLen: nat := 20
  const Header: string := "Available tasks:\n"
  const HelpTask: Task := Task("help", "Show this help message.")
  const ColorOn: string := [27 as char] + "[36m"
  const ColorOff: string := [27 as char] + "[0m"

  /** The chunker's delimiters in some order: Python iterates the set
      `{" ", "-", "&", "+", "_", "="}` in an order the model does not fix. */
  predicate IsDelimiterOrder(delims: seq<char>) {
    multiset(delims) == multiset{' ', '-', '&', '+', '_', '='}
  }

  function Spaces(n: nat): (r: string)
    ensures |r| == n && forall i :: 0 <= i < n ==> r[i] == ' '
  {
    seq(n, i => ' ')
  }

  /** `colorize`: the text between the cyan and the reset escape sequences. */
  function Colorize(s: string): (r: string)
    ensures |r| == |ColorOn| + |s| + |ColorOff|
    ensures r[..|ColorOn|] == ColorOn && r[|ColorOn|..|r| - |ColorOff|] == s && r[|r| - |ColorOff|..] == ColorOff
  {
    ColorOn + s + ColorOff
  }

  /** The `help` pseudo-task appended after the tasks of the makefiles. */
  function WithHelp(tasks: seq<Task>): (r: seq<Task>)
    ensures |r| == |tasks| + 1 && r[..|tasks|] == tasks && r[|tasks|] == HelpTask
  {
    tasks + [HelpTask]
  }

  /** The choices of the positional `tasks` argument. */
  function TaskChoices(tasks: seq<Task>): (r: seq<string>)
    ensures |r| == |tasks| + 1
    ensures forall i :: 0 <= i < |tasks| ==> r[i] == tasks[i].name
    ensures r[|tasks|] == "help"
  {
    var all := WithHelp(tasks);
    seq(|all|, i requires 0 <= i < |all| => all[i].name)
  }

  /** What follows the coloured name: spaces up to the content column for a
      short name, a line break and the content indent for a long one. */
  function Padding(name: string): (r: string)
    ensures |name| <= MaxTaskNameLen ==> Indent + |name| + |r| == ContentIndent && forall i :: 0 <= i < |r| ==> r[i] == ' '
    ensures |name| > MaxTaskNameLen ==> r == "\n" + Spaces(ContentIndent)
  {
    if |name| > MaxTaskNameLen then "\n" + Spaces(ContentIndent)
    else Spaces(ContentIndent)[Indent + |name|..]
  }

  /** The chunked description of an entry, for a terminal `width` columns wide. */
  ghost function Description(desc: string, width: int, delims: seq<char>): string
  {
    ChunkLine(desc, width - ContentIndent, delims, Spaces(ContentIndent))
  }

  /** One task's entry in the banner. */
  ghost function Entry(t: Task, width: int, delims: seq<char>): string
  {
    Spaces(Indent) + Colorize(t.name) + Padding(t.name) + Description(t.desc, width, delims) + "\n"
  }

  ghost function Entries(tasks: seq<Task>, width: int, delims: seq<char>): string
  {
    if tasks == [] then "" else Entry(tasks[0], width, delims) + Entries(tasks[1..], width, delims)
  }

  /** The `description` handed to the argument parser. */
  ghost function Banner(tasks: seq<Task>, width: int, delims: seq<char>): string
  {
    Header + Entries(WithHelp(tasks), width, delims)
  }

  /** An entry is the indented coloured name, the padding, a description that
      is the normalised task description with only breaks added, and a newline. */
  lemma EntryLayout(t: Task, width: int, delims: seq<char>)
    ensures var e := Entry(t, width, delims);
      var p := Indent + |Colorize(t.name)|;
      var q := p + |Padding(t.name)|;
      && q < |e| && e[..Indent] == Spaces(Indent) && e[Indent..p] == Colorize(t.name)
      && e[p..q] == Padding(t.name) && e[|e| - 1] == '\n'
      && Erase(e[q..|e| - 1], Spaces(ContentIndent)) == NormalizeSpace(t.desc)
  {
    var d := Description(t.desc, width, delims);
    ConcatSlices(Spaces(Indent), Colorize(t.name), Padding(t.name), d, "\n");
    ChunkLineOnlyBreaks(t.desc, width - ContentIndent, delims, Spaces(ContentIndent));
  }

  /** Each part of a five-part concatenation is the slice at its offsets. */
  lemma ConcatSlices(a: string, b: string, c: string, d: string, e: string)
    ensures var s := a + b + c + d + e;
      var p := |a| + |b|;
      var q := p + |c|;
      && |s| == q + |d| + |e| && s[..|a|] == a && s[|a|..p] == b && s[p..q] == c
      && s[q..|s| - |e|] == d && s[|s| - |e|..] == e
  {
    var s := a + b + c + d + e;
    var p := |a| + |b|;
    var q := p + |c|;
    assert s[..|a|] == a && s[|a|..p] == b;
    assert s[p..q] == c && s[q..|s| - |e|] == d;
  }

  /** Entries of consecutive task lists concatenate. */
  lemma {:induction false} EntriesAppend(a: seq<Task>, b: seq<Task>, width: int, delims: seq<char>)
    ensures Entries(a + b, width, delims) == Entries(a, width, delims) + Entries(b, width, delims)
  {
    if a == [] {
      assert a + b == b;
    } else {
      assert (a + b)[1..] == a[1..] + b;
      EntriesAppend(a[1..], b, width, delims);
    }
  }

  /** The banner lists every task in order and ends with the `help` entry. */
  lemma BannerLayout(tasks: seq<Task>, width: int, delims: seq<char>)
    ensures Banner(tasks, width, delims) == Header + Entries(tasks, width, delims) + Entry(HelpTask, width, delims)
  {
    assert WithHelp(tasks) == tasks + [HelpTask];
    var e := Entries(tasks, width, delims);
    var h := Entry(HelpTask, width, delims);
    EntriesAppend(tasks, [HelpTask], width, delims);
    EntriesSingle(HelpTask, width, delims);
    ConcatAssoc(Header, e, h);
  }

  /** One pass of the banner loop extends the banner by task `i`'s entry. */
  lemma BannerStep(head: string, banner: string, entry: string, tasks: seq<Task>, i: nat, width: int, delims: seq<char>)
    requires i < |tasks|
    requires banner == head + Entries(tasks[..i], width, delims) && entry == Entry(tasks[i], width, delims)
    ensures banner + entry == head + Entries(tasks[..i + 1], width, delims)
  {
    EntriesSnoc(tasks, i, width, delims);
    ConcatAssoc(head, Entries(tasks[..i], width, delims), entry);
  }

  /** The entries of the first `i + 1` tasks are those of the first `i`, then task `i`'s entry. */
  lemma EntriesSnoc(tasks: seq<Task>, i: nat, width: int, delims: seq<char>)
    requires i < |tasks|
    ensures Entries(tasks[..i + 1], width, delims) == Entries(tasks[..i], width, delims) + Entry(tasks[i], width, delims)
  {
    assert tasks[..i + 1] == tasks[..i] + [tasks[i]];
    EntriesAppend(tasks[..i], [tasks[i]], width, delims);
    EntriesSingle(tasks[i], width, delims);
  }

  /** The entries of a one-task list are that task's entry. */
  lemma EntriesSingle(t: Task, width: int, delims: seq<char>)
    ensures Entries([t], width, delims) == Entry(t, width, delims)
  {
    assert [t][1..] == [];
  }

  /** The loop of `parse_args` that builds the banner over the tasks with
      `help` already appended. */
  method BuildBanner(tasks: seq<Task>, width: int, delims: seq<char>) returns (banner: string)
    ensures banner == Header + Entries(tasks, width, delims)
  {
    banner := "Available tasks:";
    banner := banner + "\n";
    HeaderText();
    var i := 0;
    while i < |tasks|
      invariant 0 <= i <= |tasks|
      invariant banner == Header + Entries(tasks[..i], width, delims)
    {
      var entry := BuildEntry(tasks[i], width, delims);
      BannerStep(Header, banner, entry, tasks, i, width, delims);
      banner := banner + entry;
      i := i + 1;
    }
    assert tasks[..i] == tasks;
  }

  /** The banner's first line, written in two steps, is the header. */
  lemma HeaderText()
    ensures "Available tasks:" + "\n" == Header
  {
  }

  /** One pass of the banner loop: the text it appends for task `t`. */
  method BuildEntry(t: Task, width: int, delims: seq<char>) returns (entry: string)
    ensures entry == Entry(t, width, delims)
  {
    var indentStr := Spaces(ContentIndent);
    var pad;
    if |t.name| > MaxTaskNameLen {
      pad := "\n" + indentStr;
    } else {
      pad := indentStr[Indent + |t.name|..];
    }
    var desc := ChunkLineOf(t.desc, width - ContentIndent, delims, indentStr);
    assert Spaces(Indent) == "  ";
    entry := "  " + Colorize(t.name) + pad + desc + "\n";
  }

  // ---------------------------------------------------------------------
  // Option-to-flag decisions (`parse_args`, the option loop)
  // ---------------------------------------------------------------------

  /** How an option is registered: with a default, as a boolean toggle, or
      as a plain value flag without a default. */
  datatype FlagKind = Valued(default: string) | Toggle | Plain

  datatype FlagSpec = FlagSpec(argument: string, help: string, kind: FlagKind)

  /** The registration of one option. A non-empty default wins over the flag
      marker; the marker alone makes a toggle. */
  function FlagFor(o: OptionRecord): (r: FlagSpec)
    ensures r.argument == NormalizeOptionName(o.name, true)
    ensures r.kind.Valued? <==> o.default.Some? && o.default.value != []
    ensures r.kind.Toggle? <==> (o.default.None? || o.default.value == []) && o.flag.Some?
    ensures r.kind.Plain? <==> (o.default.None? || o.default.value == []) && o.flag.None?
    ensures r.kind.Valued? ==> r.kind.default == o.default.value && r.help == o.desc + " (default: " + o.default.value + ")"
    ensures !r.kind.Valued? ==> r.help == o.desc
  {
    var argument := NormalizeOptionName(o.name, true);
    if o.default.Some? && |o.default.value| > 0 then
      FlagSpec(argument, o.desc + " (default: " + o.default.value + ")", Valued(o.default.value))
    else if o.flag.Some? then FlagSpec(argument, o.desc, Toggle)
    else FlagSpec(argument, o.desc, Plain)
  }

  predicate IsDash(c: char) {
    c == '-'
  }

  predicate IsUnderscore(c: char) {
    c == '_'
  }

  /** The attribute the argument parser stores a long option under: the
      option string with its whole leading run of `-` removed and every other
      `-` turned into `_`. */
  function Dest(argument: string): (r: string)
    ensures var k := Span(argument, IsDash);
      && |r| == |argument| - k
      && forall i :: 0 <= i < |r| ==> r[i] == if argument[k + i] == '-' then '_' else argument[k + i]
    ensures '-' !in r
  {
    var s := argument[Span(argument, IsDash)..];
    seq(|s|, i requires 0 <= i < |s| => if s[i] == '-' then '_' else s[i])
  }

  /** One character of a name without `-`: in the flag it is `-` exactly when
      it was `_`, and the parser's renaming turns it back into its lowercase. */
  lemma ArgumentChar(c: char)
    requires c != '-'
    ensures var m := if c == '_' then '-' else Lower(c);
      (m == '-' <==> c == '_') && (if m == '-' then '_' else m) == Lower(c)
  {
  }

  /** The leading run of `-` in a flag is its `--` and one `-` per leading
      underscore of the name. */
  lemma ArgumentFormDashRun(name: string)
    requires '-' !in name
    ensures Span(NormalizeOptionName(name, true), IsDash) == 2 + Span(name, IsUnderscore)
  {
    var a := NormalizeOptionName(name, true);
    var u := Span(name, IsUnderscore);
    assert |a| == |name| + 2 && a[..2] == "--";
    forall i | 0 <= i < 2 + u
      ensures IsDash(a[i])
    {
      if i < 2 {
        assert a[i] == a[..2][i];
      } else {
        assert IsUnderscore(name[i - 2]);
      }
    }
    if u < |name| {
      assert !IsUnderscore(name[u]) && name[u] != '-';
      ArgumentChar(name[u]);
      assert !IsDash(a[2 + u]);
    }
    SpanExact(a, IsDash, 2 + u);
  }

  /** The attribute of a flag spelled by `normalize_option_name` is the
      lowercased name without its leading underscores. */
  lemma DestOfArgumentForm(name: string)
    requires '-' !in name
    ensures Dest(NormalizeOptionName(name, true)) == NormalizeOptionName(name[Span(name, IsUnderscore)..], false)
  {
    var a := NormalizeOptionName(name, true);
    var u := Span(name, IsUnderscore);
    ArgumentFormDashRun(name);
    var l := NormalizeOptionName(name[u..], false);
    DestPointwise(name, name[u..], a, l, u);
  }

  /** The character-by-character core of `DestOfArgumentForm`, over the
      facts the two renamings state one position at a time. */
  lemma DestPointwise(name: string, tail: string, a: string, l: string, u: nat)
    requires '-' !in name && u <= |name| && tail == name[u..]
    requires Span(a, IsDash) == 2 + u && |a| == |name| + 2 && |l| == |tail|
    requires forall j :: 0 <= j < |name| ==> a[j + 2] == if name[j] == '_' then '-' else Lower(name[j])
    requires forall i :: 0 <= i < |tail| ==> l[i] == Lower(tail[i])
    ensures Dest(a) == l
  {
    var k := Span(a, IsDash);
    var r := Dest(a);
    forall i | 0 <= i < |r|
      ensures r[i] == l[i]
    {
      var j := u + i;
      assert tail[i] == name[j] && name[j] in name;
      ArgumentChar(name[j]);
      assert a[j + 2] == if name[j] == '_' then '-' else Lower(name[j]);
      assert k + i == j + 2;
    }
  }

  /** The parser stores an option's value under the lowercased name without
      its leading underscores: they become `-` in the flag and join the
      leading run of `-` that the parser strips. */
  lemma DestOfFlag(o: OptionRecord)
    requires '-' !in o.name
    ensures Dest(FlagFor(o).argument) == NormalizeOptionName(o.name[Span(o.name, IsUnderscore)..], false)
  {
    DestOfArgumentForm(o.name);
  }

  /** For an option whose name does not start with `_`, the parsed value is
      stored under the lowercased name, the key the invocation builder looks up. */
  lemma FlagDestIsAttributeName(o: OptionRecord)
    requires '-' !in o.name && (o.name == [] || o.name[0] != '_')
    ensures Dest(FlagFor(o).argument) == NormalizeOptionName(o.name, false)
  {
    DestOfFlag(o);
    assert Span(o.name, IsUnderscore) == 0 by {
      if o.name != [] { assert !IsUnderscore(o.name[0]); }
    }
    assert o.name[0..] == o.name;
  }


  /** The option loop of `parse_args`: one registration per option, in order. */
  method BuildSchema(options: seq<OptionRecord>) returns (flags: seq<FlagSpec>)
    ensures |flags| == |options|
    ensures forall i :: 0 <= i < |options| ==> flags[i] == FlagFor(options[i])
  {
    flags := [];
    for i := 0 to |options|
      invariant |flags| == i
      invariant forall j :: 0 <= j < i ==> flags[j] == FlagFor(options[j])
    {
      var o := options[i];
      var argument := NormalizeOptionName(o.name, true);
      var help := o.desc;
      var spec;
      if o.default.Some? && |o.default.value| > 0 {
        help := help + " (default: " + o.default.value + ")";
        spec := FlagSpec(argument, help, Valued(o.default.value));
      } else if o.flag.Some? {
        spec := FlagSpec(argument, help, Toggle);
      } else {
        spec := FlagSpec(argument, help, Plain);
      }
      flags := flags + [spec];
    }
  }

  /** What `parse_args` hands to the argument parser. */
  datatype ArgumentPlan = ArgumentPlan(tasks: seq<Task>, description: string, choices: seq<string>, flags: seq<FlagSpec>)

  /** `parse_args` up to the parse itself: the `help` task is appended, the
      banner laid out for a terminal `width` columns wide, the choices and
      the option flags derived. */
  method PlanArguments(tasks: seq<Task>, options: seq<OptionRecord>, width: int, delims: seq<char>)
    returns (plan: ArgumentPlan)
    requires IsDelimiterOrder(delims)
    ensures plan.tasks == WithHelp(tasks)
    ensures plan.description == Banner(tasks, width, delims)
    ensures plan.choices == TaskChoices(tasks)
    ensures |plan.flags| == |options| && forall i :: 0 <= i < |options| ==> plan.flags[i] == FlagFor(options[i])
  {
    var all := tasks + [HelpTask];
    var names := seq(|all|, i requires 0 <= i < |all| => all[i].name);
    var description := BuildBanner(all, width, delims);
    var flags := BuildSchema(options);
    plan := ArgumentPlan(all, description, names, flags);
  }
}
