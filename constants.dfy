/**
 * update-constants.py: the `#define SD_MESSAGE_*` lines of two C
 * headers become one `add_id(m, "NAME", NAME) JOINER` line per symbol,
 * sorted and without duplicates.
 */
module Constants {
  import opened Base
  import opened PyText

  const DEFINE: string := "#define"
  /** The prefix a header line needs to be kept. */
  const KEEP_PREFIX: string := "#define SD_MESSAGE"
  /** Kept lines must not contain this: it marks the string forms of the ids. */
  const STR_MARK: string := "_STR "
  /** Every symbol starts with this. */
  const MESSAGE_PREFIX: string := "SD_MESSAGE_"

  predicate StartsWith(s: string, p: string)
  {
    |p| <= |s| && s[..|p|] == p
  }

  predicate EndsWith(s: string, p: string)
  {
    |p| <= |s| && s[|s| - |p|..] == p
  }

  /** `p in s` for strings: `p` occurs at some position of `s`. */
  predicate Contains(s: string, p: string)
    decreases |s|
  {
    StartsWith(s, p) || (s != [] && Contains(s[1..], p))
  }

  /** The lines of a text glued back together. */
  function Concat(lines: seq<string>): string
  {
    if lines == [] then "" else lines[0] + Concat(lines[1..])
  }

  /** One more line in front adds its text in front. */
  lemma ConcatCons(line: string, rest: seq<string>)
    ensures Concat([line] + rest) == line + Concat(rest)
  {
    assert ([line] + rest)[1..] == rest;
  }

  /**
   * `file.readlines()`: the text cut after each newline, which each line
   * keeps; only the last line may lack one.
   */
  function ReadLines(content: string): (lines: seq<string>)
    ensures Concat(lines) == content
    ensures forall k :: 0 <= k < |lines| ==> lines[k] != []
    ensures forall k :: 0 <= k < |lines| - 1 ==> EndsWith(lines[k], "\n")
    ensures content != [] && content[|content| - 1] == '\n' ==>
      forall k :: 0 <= k < |lines| ==> EndsWith(lines[k], "\n")
  {
    var lines := SplitLines(content);
    SplitLinesConcat(content);
    SplitLinesShape(content);
    NewlineEndedAll(lines[..if lines == [] then 0 else |lines| - 1]);
    NewlineEndedAll(lines);
    lines
  }

  /** The cutting itself: up to and including the first newline, then the rest. */
  function SplitLines(content: string): seq<string>
    decreases |content|
  {
    match Find(content, '\n', 0)
    case None => if content == [] then [] else [content]
    case Some(i) => [content[..i + 1]] + SplitLines(content[i + 1..])
  }

  /** The lines concatenate back to the text. */
  lemma {:induction false} SplitLinesConcat(content: string)
    ensures Concat(SplitLines(content)) == content
    decreases |content|
  {
    match Find(content, '\n', 0)
    case None =>
    case Some(i) =>
      SplitLinesConcat(content[i + 1..]);
      ConcatCons(content[..i + 1], SplitLines(content[i + 1..]));
      assert content[..i + 1] + content[i + 1..] == content;
  }

  /** The last character of a nonempty text is a newline. */
  predicate NewlineEnded(s: string)
  {
    s != [] && s[|s| - 1] == '\n'
  }

  /** Each of `xs` that ends in a newline character ends in the one-character text "\n". */
  lemma NewlineEndedAll(xs: seq<string>)
    ensures forall k :: 0 <= k < |xs| && NewlineEnded(xs[k]) ==> EndsWith(xs[k], "\n")
  {
    forall k | 0 <= k < |xs| && NewlineEnded(xs[k])
      ensures EndsWith(xs[k], "\n")
    {
      var x := xs[k];
      assert x[|x| - 1..] == "\n";
    }
  }

  /** No line is empty; each but the last ends in its newline, and so does the last when the text ends in one. */
  lemma {:induction false} SplitLinesShape(content: string)
    ensures forall k :: 0 <= k < |SplitLines(content)| ==> SplitLines(content)[k] != []
    ensures forall k :: 0 <= k < |SplitLines(content)| - 1 ==> NewlineEnded(SplitLines(content)[k])
    ensures NewlineEnded(content) ==> forall k :: 0 <= k < |SplitLines(content)| ==> NewlineEnded(SplitLines(content)[k])
    decreases |content|
  {
    match Find(content, '\n', 0)
    case None =>
      assert SplitLines(content) == if content == [] then [] else [content];
      if content != [] {
        assert content[|content| - 1] != '\n';
      }
    case Some(i) =>
      var line := content[..i + 1];
      var tail := content[i + 1..];
      SplitLinesShape(tail);
      var rest := SplitLines(tail);
      var lines := [line] + rest;
      assert SplitLines(content) == lines;
      assert NewlineEnded(line);
      assert tail != [] ==> tail[|tail| - 1] == content[|content| - 1];
      forall k | 0 <= k < |lines|
        ensures lines[k] != []
        ensures k < |lines| - 1 ==> NewlineEnded(lines[k])
        ensures NewlineEnded(content) ==> NewlineEnded(lines[k])
      {
        if k > 0 {
          assert lines[k] == rest[k - 1];
        }
      }
  }

  /** The filter: a `#define SD_MESSAGE` line that is not a `_STR` variant. */
  predicate Kept(line: string)
  {
    StartsWith(line, KEEP_PREFIX) && !Contains(line, STR_MARK)
  }

  /**
   * How a kept line ending in a backslash is recognised: as the script
   * does it, on the line as read (newline included), or with the newline
   * set aside first.
   */
  datatype Reading = AsWritten | Corrected

  /** `line.removesuffix("\n")`. */
  function TrimNewline(line: string): (r: string)
    ensures EndsWith(line, "\n") ==> r + "\n" == line
    ensures !EndsWith(line, "\n") ==> r == line
  {
    if EndsWith(line, "\n") then line[..|line| - 1] else line
  }

  /** The line continues on the next one. */
  predicate Continues(line: string, mode: Reading)
  {
    match mode
    case AsWritten => EndsWith(line, "\\")
    case Corrected => EndsWith(TrimNewline(line), "\\")
  }

  /** The line without its backslash, followed by the next line. */
  function Joined(line: string, next: string, mode: Reading): string
    requires Continues(line, mode)
  {
    match mode
    case AsWritten => line[..|line| - 1] + next
    case Corrected =>
      var t := TrimNewline(line);
      t[..|t| - 1] + next
  }

  function Prefixed(x: string, r: Result<seq<string>, Exc>): Result<seq<string>, Exc>
  {
    match r
    case Err(e) => Err(e)
    case Ok(xs) => Ok([x] + xs)
  }

  function Appended(out: seq<string>, r: Result<seq<string>, Exc>): Result<seq<string>, Exc>
  {
    match r
    case Err(e) => Err(e)
    case Ok(xs) => Ok(out + xs)
  }

  /**
   * extract_define_lines over the lines of a header: each kept line,
   * joined with the next when it continues, with its white space
   * collapsed. A continued last line has no next line to take, and the
   * `next` call raises StopIteration.
   */
  function DefineLines(lines: seq<string>, mode: Reading): (r: Result<seq<string>, Exc>)
    ensures r.Err? ==> r.error == StopIteration
    ensures r.Ok? ==> |r.value| <= |lines|
    ensures r.Ok? ==> forall k :: 0 <= k < |r.value| ==> Collapsed(r.value[k])
    decreases |lines|
  {
    if lines == [] then Ok([])
    else if !Kept(lines[0]) then DefineLines(lines[1..], mode)
    else if Continues(lines[0], mode) then
      if |lines| == 1 then Err(StopIteration)
      else
        var x := Collapse(Joined(lines[0], lines[1], mode));
        CollapseCollapsed(Joined(lines[0], lines[1], mode));
        Prefixed(x, DefineLines(lines[2..], mode))
    else
      CollapseCollapsed(lines[0]);
      Prefixed(Collapse(lines[0]), DefineLines(lines[1..], mode))
  }

  /** One more line of output, then the rest. */
  lemma AppendedPrefixed(out: seq<string>, x: string, r: Result<seq<string>, Exc>)
    ensures Appended(out, Prefixed(x, r)) == Appended(out + [x], r)
  {
    if r.Ok? {
      assert out + ([x] + r.value) == (out + [x]) + r.value;
    }
  }

  /**
   * extract_define_lines: the iterator over the lines is the index `i`,
   * and `next(lines)` takes the line at `i` too.
   */
  method ExtractDefineLines(lines: seq<string>, mode: Reading) returns (r: Result<seq<string>, Exc>)
    ensures r == DefineLines(lines, mode)
  {
    var out: seq<string> := [];
    var i := 0;
    assert lines[i..] == lines;
    assert DefineLines(lines, mode).Ok? ==> out + DefineLines(lines, mode).value == DefineLines(lines, mode).value;
    while i < |lines|
      invariant 0 <= i <= |lines|
      invariant DefineLines(lines, mode) == Appended(out, DefineLines(lines[i..], mode))
      decreases |lines| - i
    {
      var line := lines[i];
      assert lines[i..][1..] == lines[i + 1..];
      if !Kept(line) {
        i := i + 1;
      } else if Continues(line, mode) {
        if i + 1 == |lines| {
          return Err(StopIteration);
        }
        assert lines[i..][1] == lines[i + 1] && lines[i..][2..] == lines[i + 2..];
        var joined := Joined(line, lines[i + 1], mode);
        AppendedPrefixed(out, Collapse(joined), DefineLines(lines[i + 2..], mode));
        out := out + [Collapse(joined)];
        i := i + 2;
      } else {
        AppendedPrefixed(out, Collapse(line), DefineLines(lines[i + 1..], mode));
        out := out + [Collapse(line)];
        i := i + 1;
      }
    }
    assert out + [] == out;
    return Ok(out);
  }

  /** The kept lines, each collapsed on its own. */
  function CollapsedKept(lines: seq<string>): (r: seq<string>)
    ensures |r| <= |lines|
  {
    if lines == [] then []
    else if Kept(lines[0]) then [Collapse(lines[0])] + CollapsedKept(lines[1..])
    else CollapsedKept(lines[1..])
  }

  /**
   * As written, a line that ends in a newline never counts as continued,
   * so lines as `readlines` returns them from a header that ends in a
   * newline are never joined: every kept line is taken on its own.
   */
  lemma {:induction false} AsWrittenNeverJoins(lines: seq<string>)
    requires forall k :: 0 <= k < |lines| ==> EndsWith(lines[k], "\n")
    ensures DefineLines(lines, AsWritten) == Ok(CollapsedKept(lines))
    decreases |lines|
  {
    if lines != [] {
      var l := lines[0];
      assert l[|l| - 1..] == "\n";
      assert !Continues(l, AsWritten);
      AsWrittenNeverJoins(lines[1..]);
    }
  }

  /** With the newline set aside, a continued line takes the next line whole. */
  lemma ContinuedJoins(line: string, next: string, rest: seq<string>)
    requires Kept(line) && EndsWith(line, "\\\n")
    ensures Continues(line, Corrected)
    ensures DefineLines([line, next] + rest, Corrected)
      == Prefixed(Collapse(line[..|line| - 2] + next), DefineLines(rest, Corrected))
  {
    assert line[|line| - 1..] == "\n";
    var t := TrimNewline(line);
    assert t == line[..|line| - 1];
    assert t[|t| - 1..] == "\\";
    assert t[..|t| - 1] == line[..|line| - 2];
    var ls := [line, next] + rest;
    assert ls[0] == line && ls[1] == next && ls[2..] == rest;
  }

  /** A continued line that is the last but one is joined with the last. */
  lemma ContinuedJoinsLast(line: string, next: string)
    requires Kept(line) && EndsWith(line, "\\\n")
    ensures DefineLines([line, next], Corrected) == Ok([Collapse(line[..|line| - 2] + next)])
  {
    ContinuedJoins(line, next, []);
    assert [line, next] + [] == [line, next];
    var x := Collapse(line[..|line| - 2] + next);
    assert DefineLines([], Corrected) == Ok([]);
    assert [x] + [] == [x];
  }

  /** `\w` on ASCII text: letters, digits and the underscore. */
  predicate IsWordChar(c: char)
  {
    ('a' <= c <= 'z') || ('A' <= c <= 'Z') || ('0' <= c <= '9') || c == '_'
  }

  /** `[A-Z0-9_]`. */
  predicate IsNameChar(c: char)
  {
    ('A' <= c <= 'Z') || ('0' <= c <= '9') || c == '_'
  }

  predicate AllSpace(s: string)
  {
    forall k :: 0 <= k < |s| ==> IsPySpace(s[k])
  }

  /** `SD_MESSAGE_[A-Z0-9_]+`. */
  predicate IsSymbolName(n: string)
  {
    |n| > |MESSAGE_PREFIX| && n[..|MESSAGE_PREFIX|] == MESSAGE_PREFIX
    && forall k :: 0 <= k < |n| ==> IsNameChar(n[k])
  }

  /** The end of the run of white space starting at `i`. */
  function SpaceEnd(s: string, i: nat): (j: nat)
    requires i <= |s|
    ensures i <= j <= |s|
    ensures forall k :: i <= k < j ==> IsPySpace(s[k])
    ensures j < |s| ==> !IsPySpace(s[j])
    decreases |s| - i
  {
    if i == |s| || !IsPySpace(s[i]) then i else SpaceEnd(s, i + 1)
  }

  /** The end of the run of `[A-Z0-9_]` starting at `i`. */
  function NameEnd(s: string, i: nat): (j: nat)
    requires i <= |s|
    ensures i <= j <= |s|
    ensures forall k :: i <= k < j ==> IsNameChar(s[k])
    ensures j < |s| ==> !IsNameChar(s[j])
    decreases |s| - i
  {
    if i == |s| || !IsNameChar(s[i]) then i else NameEnd(s, i + 1)
  }

  lemma {:induction false} SpaceEndAt(s: string, i: nat, j: nat)
    requires i <= j <= |s|
    requires forall k :: i <= k < j ==> IsPySpace(s[k])
    requires j < |s| ==> !IsPySpace(s[j])
    ensures SpaceEnd(s, i) == j
    decreases j - i
  {
    if i < j {
      SpaceEndAt(s, i + 1, j);
    }
  }

  lemma {:induction false} NameEndAt(s: string, i: nat, j: nat)
    requires i <= j <= |s|
    requires forall k :: i <= k < j ==> IsNameChar(s[k])
    requires j < |s| ==> !IsNameChar(s[j])
    ensures NameEnd(s, i) == j
    decreases j - i
  {
    if i < j {
      NameEndAt(s, i + 1, j);
    }
  }

  /** The characters of MESSAGE_PREFIX are name characters. */
  lemma PrefixNameChars()
    ensures forall k :: 0 <= k < |MESSAGE_PREFIX| ==> IsNameChar(MESSAGE_PREFIX[k])
  {
  }

  /** The prefix followed by a nonempty run of name characters is a symbol name. */
  lemma SymbolNameAt(line: string, a: nat, b: nat)
    requires a + |MESSAGE_PREFIX| < b <= |line|
    requires line[a..][..|MESSAGE_PREFIX|] == MESSAGE_PREFIX
    requires forall k :: a + |MESSAGE_PREFIX| <= k < b ==> IsNameChar(line[k])
    ensures IsSymbolName(line[a..b])
  {
    PrefixNameChars();
    var n := line[a..b];
    assert n[..|MESSAGE_PREFIX|] == line[a..][..|MESSAGE_PREFIX|];
    forall k | 0 <= k < |n|
      ensures IsNameChar(n[k])
    {
      if k < |MESSAGE_PREFIX| {
        assert n[k] == MESSAGE_PREFIX[k];
      } else {
        assert n[k] == line[a + k];
      }
    }
  }

  /**
   * extract_symbol: the name matched by
   * `^#define\s+(SD_MESSAGE_[A-Z0-9_]+)\s+\w+` at the start of the line,
   * or the empty string. Each run in the pattern can only end where the
   * next element of the pattern can start, so the match, when there is
   * one, is found by taking every run whole.
   */
  function ExtractSymbol(line: string): (r: string)
    ensures r == "" || IsSymbolName(r)
    ensures r != "" ==> StartsWith(line, DEFINE) && |line| > |DEFINE| && IsPySpace(line[|DEFINE|])
  {
    if !StartsWith(line, DEFINE) then ""
    else
      var a := SpaceEnd(line, |DEFINE|);
      if a == |DEFINE| || !StartsWith(line[a..], MESSAGE_PREFIX) then ""
      else
        var b := NameEnd(line, a + |MESSAGE_PREFIX|);
        if b == a + |MESSAGE_PREFIX| then ""
        else
          var c := SpaceEnd(line, b);
          if c == b || c == |line| || !IsWordChar(line[c]) then ""
          else
            SymbolNameAt(line, a, b);
            line[a..b]
  }

  /** The pieces of a definition line, in order. */
  function DefineLine(sp1: string, name: string, sp2: string, rest: string): string
  {
    DEFINE + sp1 + name + sp2 + rest
  }

  /** Where the name and what follows it sit in a definition line. */
  lemma DefineLineLayout(sp1: string, name: string, sp2: string, rest: string)
    ensures var line := DefineLine(sp1, name, sp2, rest);
      var a := |DEFINE| + |sp1|;
      var b := a + |name|;
      |line| == b + |sp2| + |rest|
      && line[..|DEFINE|] == DEFINE
      && (forall k :: 0 <= k < |sp1| ==> line[|DEFINE| + k] == sp1[k])
      && line[a..b] == name
      && (forall k :: 0 <= k < |sp2| ==> line[b + k] == sp2[k])
      && line[b + |sp2|..] == rest
  {
  }

  /**
   * The runs of a definition line, given by where they end: the name
   * from `a` to `b`, white space from `b` to `c`.
   */
  lemma ExtractSymbolAt(line: string, a: nat, b: nat, c: nat)
    requires |DEFINE| < a && a + |MESSAGE_PREFIX| < b <= c <= |line|
    requires line[..|DEFINE|] == DEFINE
    requires forall k :: |DEFINE| <= k < a ==> IsPySpace(line[k])
    requires IsSymbolName(line[a..b])
    requires b < |line| ==> !IsNameChar(line[b])
    requires forall k :: b <= k < c ==> IsPySpace(line[k])
    requires c < |line| ==> !IsPySpace(line[c])
    ensures ExtractSymbol(line) == if b < c < |line| && IsWordChar(line[c]) then line[a..b] else ""
  {
    SpaceEndAt(line, |DEFINE|, a);
    NameRunAt(line, a, b);
    SpaceEndAt(line, b, c);
  }

  /** A symbol name from `a` to `b` starts with the prefix, and its run of name characters ends at `b`. */
  lemma NameRunAt(line: string, a: nat, b: nat)
    requires a + |MESSAGE_PREFIX| < b <= |line|
    requires IsSymbolName(line[a..b])
    requires b < |line| ==> !IsNameChar(line[b])
    ensures StartsWith(line[a..], MESSAGE_PREFIX)
    ensures NameEnd(line, a + |MESSAGE_PREFIX|) == b
  {
    var n := line[a..b];
    assert line[a..][..|MESSAGE_PREFIX|] == n[..|MESSAGE_PREFIX|];
    forall k | a + |MESSAGE_PREFIX| <= k < b
      ensures IsNameChar(line[k])
    {
      assert line[k] == n[k - a];
    }
    NameEndAt(line, a + |MESSAGE_PREFIX|, b);
  }

  /** The symbol of `#define NAME VALUE`: white space around the name, a word after it. */
  lemma ExtractSymbolOf(sp1: string, name: string, sp2: string, rest: string)
    requires sp1 != [] && AllSpace(sp1) && sp2 != [] && AllSpace(sp2)
    requires IsSymbolName(name)
    requires rest != [] && IsWordChar(rest[0])
    ensures ExtractSymbol(DefineLine(sp1, name, sp2, rest)) == name
  {
    var line := DefineLine(sp1, name, sp2, rest);
    DefineLineLayout(sp1, name, sp2, rest);
    var a := |DEFINE| + |sp1|;
    var b := a + |name|;
    assert line[b] == sp2[0];
    assert line[b + |sp2|] == rest[0];
    ExtractSymbolAt(line, a, b, b + |sp2|);
  }

  /** Without a word after the name there is no symbol. */
  lemma ExtractSymbolNeedsValue(sp1: string, name: string, sp2: string, rest: string)
    requires sp1 != [] && AllSpace(sp1) && AllSpace(sp2)
    requires IsSymbolName(name)
    requires rest == [] || (!IsWordChar(rest[0]) && !IsPySpace(rest[0]))
    ensures ExtractSymbol(DefineLine(sp1, name, sp2, rest)) == ""
  {
    var line := DefineLine(sp1, name, sp2, rest);
    DefineLineLayout(sp1, name, sp2, rest);
    var a := |DEFINE| + |sp1|;
    var b := a + |name|;
    if sp2 != [] {
      assert line[b] == sp2[0];
    } else if rest != [] {
      assert line[b] == rest[0];
    }
    if rest != [] {
      assert line[b + |sp2|] == rest[0];
    }
    ExtractSymbolAt(line, a, b, b + |sp2|);
  }

  /** White space at the front does not change the words. */
  lemma {:induction false} WordsAfterSpace(sp: string, x: string)
    requires AllSpace(sp)
    ensures Words(sp + x) == Words(x)
    decreases |sp|
  {
    if sp != [] {
      assert (sp + x)[0] == sp[0];
      assert (sp + x)[1..] == sp[1..] + x;
      WordsAfterSpace(sp[1..], x);
    } else {
      assert sp + x == x;
    }
  }

  /** Name and word characters are not white space. */
  lemma NameCharsNoSpace(n: string)
    requires forall k :: 0 <= k < |n| ==> IsWordChar(n[k])
    ensures NoSpace(n)
  {
  }

  /** The words of a definition line: `#define`, the name, then the words of the rest. */
  lemma WordsOfDefineLine(sp1: string, name: string, sp2: string, rest: string)
    requires sp1 != [] && AllSpace(sp1) && sp2 != [] && AllSpace(sp2)
    requires name != [] && NoSpace(name)
    ensures Words(DefineLine(sp1, name, sp2, rest)) == [DEFINE, name] + Words(rest)
  {
    var tail := name + (sp2 + rest);
    assert DefineLine(sp1, name, sp2, rest) == DEFINE + (sp1 + tail);
    DefineIsWord();
    WordThenSpace(DEFINE, sp1, tail);
    WordThenSpace(name, sp2, rest);
  }

  lemma DefineIsWord()
    ensures DEFINE != [] && NoSpace(DEFINE)
  {
  }

  /** A word, then white space: the word, then the words of what follows. */
  lemma WordThenSpace(w: string, sp: string, x: string)
    requires w != [] && NoSpace(w) && sp != [] && AllSpace(sp)
    ensures Words(w + (sp + x)) == [w] + Words(x)
  {
    assert (sp + x)[0] == sp[0];
    WordRun(w, sp + x);
    WordsAfterSpace(sp, x);
  }

  /** A word followed by white space only is the only word. */
  lemma WordsOfLastWord(w: string, sp: string)
    requires w != [] && NoSpace(w) && AllSpace(sp) && sp != []
    ensures Words(w + sp) == [w]
  {
    WordRun(w, sp);
    WordsAfterSpace(sp, []);
    assert sp + [] == sp;
  }

  /** `#define NAME` then white space, one word and white space collapses to `#define NAME WORD`. */
  lemma CollapseDefineLine(name: string, sp2: string, w: string, sp3: string)
    requires name != [] && NoSpace(name) && sp2 != [] && AllSpace(sp2)
    requires w != [] && NoSpace(w) && sp3 != [] && AllSpace(sp3)
    ensures Collapse(DefineLine(" ", name, sp2, w + sp3)) == DefineLine(" ", name, " ", w)
  {
    WordsOfDefineLine(" ", name, sp2, w + sp3);
    WordsOfLastWord(w, sp3);
    var ws := [DEFINE, name, w];
    assert Words(DefineLine(" ", name, sp2, w + sp3)) == ws;
    assert ws[1..] == [name, w] && ws[1..][1..] == [w];
    assert Join([name, w], ' ') == name + [' '] + w;
    assert Join(ws, ' ') == DEFINE + [' '] + (name + [' '] + w);
  }

  /** A definition line of a symbol name begins with the filter's prefix. */
  lemma DefineLineStartsKept(name: string, sp2: string, rest: string)
    requires IsSymbolName(name)
    ensures StartsWith(DefineLine(" ", name, sp2, rest), KEEP_PREFIX)
  {
    var l := DefineLine(" ", name, sp2, rest);
    assert l == (DEFINE + " ") + (name + sp2 + rest);
    assert KEEP_PREFIX == (DEFINE + " ") + MESSAGE_PREFIX[..10];
    assert name[..10] == MESSAGE_PREFIX[..10];
    assert l[..|KEEP_PREFIX|] == (DEFINE + " ") + name[..10];
  }

  /** A line that starts with white space is never kept. */
  lemma IndentedNotKept(x: string)
    ensures !Kept(" " + x)
  {
    var l := " " + x;
    assert l[0] == ' ';
    if |KEEP_PREFIX| <= |l| {
      assert l[..|KEEP_PREFIX|][0] == ' ';
    }
  }

  /** The symbols of one line. */
  lemma SymbolsOfOne(line: string)
    ensures Symbols([line]) == if ExtractSymbol(line) == "" then [] else [ExtractSymbol(line)]
  {
    var s := ExtractSymbol(line);
    assert [line][1..] == [];
    assert FoundSymbols([line]) == if s == "" then [] else [s];
    assert [s][..0] == [];
    assert SortedSet([s]) == Insert(s, SortedSet([])) == [s];
  }

  /** The first line of a definition continued on the next, and that next line. */
  function ContinuedDefinition(name: string, value: string): seq<string>
  {
    [DefineLine(" ", name, " ", "\\\n"), " " + value + "\n"]
  }

  /**
   * As written, a definition continued on a second line loses its value:
   * the backslash is not seen before the newline, the first line is taken
   * alone and ends in the backslash, and no symbol is found.
   */
  lemma ContinuationLostAsWritten(name: string, value: string)
    requires IsSymbolName(name)
    requires !Contains(DefineLine(" ", name, " ", "\\\n"), STR_MARK)
    ensures DefineLines(ContinuedDefinition(name, value), AsWritten) == Ok([DefineLine(" ", name, " ", "\\")])
    ensures Symbols(DefineLines(ContinuedDefinition(name, value), AsWritten).value) == []
  {
    var lines := ContinuedDefinition(name, value);
    var l := lines[0];
    DefineLineStartsKept(name, " ", "\\\n");
    IndentedNotKept(value + "\n");
    assert lines[1] == " " + (value + "\n");
    assert l[|l| - 1..] == "\n" && lines[1][|lines[1]| - 1..] == "\n";
    AsWrittenNeverJoins(lines);
    assert lines[1..] == [lines[1]] && lines[1..][1..] == [];
    assert CollapsedKept(lines) == [Collapse(l)];
    assert "\\\n" == "\\" + "\n";
    CollapseDefineLine(name, " ", "\\", "\n");
    var c := DefineLine(" ", name, " ", "\\");
    ExtractSymbolNeedsValue(" ", name, " ", "\\");
    SymbolsOfOne(c);
  }

  /** The continued line ends in a backslash and a newline; without them, the next line follows. */
  lemma ContinuedLineJoined(name: string, value: string)
    ensures var l := ContinuedDefinition(name, value)[0];
      EndsWith(l, "\\\n")
      && l[..|l| - 2] + ContinuedDefinition(name, value)[1] == DefineLine(" ", name, "  ", value + "\n")
  {
    var l := ContinuedDefinition(name, value)[0];
    var head := DEFINE + " " + name + " ";
    assert l == head + "\\\n";
    assert l[|l| - 2..] == "\\\n";
    assert l[..|l| - 2] == head;
  }

  /** Once the newline is set aside, the two lines are joined into one definition. */
  lemma ContinuationJoinedCorrected(name: string, value: string)
    requires IsSymbolName(name)
    requires value != [] && NoSpace(value)
    requires !Contains(DefineLine(" ", name, " ", "\\\n"), STR_MARK)
    ensures DefineLines(ContinuedDefinition(name, value), Corrected) == Ok([DefineLine(" ", name, " ", value)])
  {
    var lines := ContinuedDefinition(name, value);
    DefineLineStartsKept(name, " ", "\\\n");
    ContinuedLineJoined(name, value);
    ContinuedJoinsLast(lines[0], lines[1]);
    NameCharsNoSpace(name);
    CollapseDefineLine(name, "  ", value, "\n");
  }

  /** ... and the symbol of the continued definition is found. */
  lemma ContinuationKeptCorrected(name: string, value: string)
    requires IsSymbolName(name)
    requires value != [] && forall k :: 0 <= k < |value| ==> IsWordChar(value[k])
    requires !Contains(DefineLine(" ", name, " ", "\\\n"), STR_MARK)
    ensures var r := DefineLines(ContinuedDefinition(name, value), Corrected);
      r.Ok? && Symbols(r.value) == [name]
  {
    NameCharsNoSpace(value);
    ContinuationJoinedCorrected(name, value);
    ExtractSymbolOf(" ", name, " ", value);
    SymbolsOfOne(DefineLine(" ", name, " ", value));
  }

  /** build_line_for_constant. */
  function BuildLine(name: string): (r: string)
    ensures |r| == 2 * |name| + 22
    ensures r[11..11 + |name|] == name
  {
    "add_id(m, \"" + name + "\", " + name + ") JOINER"
  }

  /** Distinct symbols give distinct lines. */
  lemma BuildLineInjective(a: string, b: string)
    requires BuildLine(a) == BuildLine(b)
    ensures a == b
  {
    assert |a| == |b|;
  }

  /** Python's `a < b` on strings: code point by code point, a proper prefix first. */
  predicate Below(a: string, b: string)
    decreases |a|
  {
    if a == [] then b != []
    else b != [] && (a[0] < b[0] || (a[0] == b[0] && Below(a[1..], b[1..])))
  }

  lemma {:induction false} BelowIrreflexive(a: string)
    ensures !Below(a, a)
    decreases |a|
  {
    if a != [] {
      BelowIrreflexive(a[1..]);
    }
  }

  lemma {:induction false} BelowTransitive(a: string, b: string, c: string)
    requires Below(a, b) && Below(b, c)
    ensures Below(a, c)
    decreases |a|
  {
    if a != [] && a[0] == b[0] && b[0] == c[0] {
      BelowTransitive(a[1..], b[1..], c[1..]);
    }
  }

  lemma {:induction false} BelowTotal(a: string, b: string)
    requires a != b
    ensures Below(a, b) || Below(b, a)
    decreases |a|
  {
    if a != [] && b != [] && a[0] == b[0] {
      assert a == [a[0]] + a[1..] && b == [b[0]] + b[1..];
      BelowTotal(a[1..], b[1..]);
    }
  }

  predicate StrictlySorted(xs: seq<string>)
  {
    forall i, j :: 0 <= i < j < |xs| ==> Below(xs[i], xs[j])
  }

  /** `x` put into its place in a sorted sequence, unless it is already there. */
  function Insert(x: string, xs: seq<string>): (r: seq<string>)
    requires StrictlySorted(xs)
    ensures StrictlySorted(r)
    ensures forall s :: s in r <==> s == x || s in xs
    decreases |xs|
  {
    if xs == [] then [x]
    else if x == xs[0] then xs
    else if Below(x, xs[0]) then
      forall j | 0 < j < |xs|
        ensures Below(x, xs[j])
      {
        BelowTransitive(x, xs[0], xs[j]);
      }
      [x] + xs
    else
      BelowTotal(x, xs[0]);
      var rest := Insert(x, xs[1..]);
      assert forall s :: s in rest ==> Below(xs[0], s) by {
        forall s | s in rest
          ensures Below(xs[0], s)
        {
          if s != x {
            var j :| 1 <= j < |xs| && xs[j] == s;
          }
        }
      }
      [xs[0]] + rest
  }

  /** `sorted(frozenset(xs))`. */
  function SortedSet(xs: seq<string>): (r: seq<string>)
    ensures StrictlySorted(r)
    ensures forall s :: s in r <==> s in xs
  {
    if xs == [] then [] else Insert(xs[|xs| - 1], SortedSet(xs[..|xs| - 1]))
  }

  /** No two strings are each below the other. */
  lemma BelowAsymmetric(a: string, b: string)
    ensures !(Below(a, b) && Below(b, a))
  {
    if Below(a, b) && Below(b, a) {
      BelowTransitive(a, b, a);
      BelowIrreflexive(a);
    }
  }

  /** The first element of a strictly sorted sequence is its least. */
  lemma SortedHeadLeast(xs: seq<string>, s: string)
    requires StrictlySorted(xs) && s in xs
    ensures s == xs[0] || Below(xs[0], s)
  {
  }

  /** A set has one strictly sorted listing. */
  lemma {:induction false} SortedListingUnique(xs: seq<string>, ys: seq<string>)
    requires StrictlySorted(xs) && StrictlySorted(ys)
    requires forall s :: s in xs <==> s in ys
    ensures xs == ys
    decreases |xs|
  {
    if xs != [] {
      assert xs[0] in xs;
    }
    if ys != [] {
      assert ys[0] in ys;
    }
    if xs != [] && ys != [] {
      SortedHeadLeast(ys, xs[0]);
      SortedHeadLeast(xs, ys[0]);
      BelowAsymmetric(xs[0], ys[0]);
      forall s
        ensures s in xs[1..] <==> s in ys[1..]
      {
        if s in xs[1..] {
          var i :| 0 <= i < |xs[1..]| && xs[1..][i] == s;
          assert Below(xs[0], xs[i + 1]);
          BelowIrreflexive(s);
          assert s in ys;
          var k :| 0 <= k < |ys| && ys[k] == s;
          assert ys[1..][k - 1] == s;
        }
        if s in ys[1..] {
          var i :| 0 <= i < |ys[1..]| && ys[1..][i] == s;
          assert Below(ys[0], ys[i + 1]);
          BelowIrreflexive(s);
          assert s in xs;
          var k :| 0 <= k < |xs| && xs[k] == s;
          assert xs[1..][k - 1] == s;
        }
      }
      SortedListingUnique(xs[1..], ys[1..]);
      assert xs == [xs[0]] + xs[1..] && ys == [ys[0]] + ys[1..];
    }
  }

  /** The symbols of the lines that have one, in line order, repeats included. */
  function FoundSymbols(lines: seq<string>): (r: seq<string>)
    ensures forall s :: s in r <==> s != "" && exists k :: 0 <= k < |lines| && ExtractSymbol(lines[k]) == s
  {
    if lines == [] then []
    else
      var rest := FoundSymbols(lines[1..]);
      assert forall k :: 1 <= k < |lines| ==> lines[k] == lines[1..][k - 1];
      var s := ExtractSymbol(lines[0]);
      if s == "" then rest else [s] + rest
  }

  /**
   * `sorted(frozenset(s for line in lines if (s := extract_symbol(line))))`:
   * every symbol found, once, in order; nothing else.
   */
  function Symbols(lines: seq<string>): (r: seq<string>)
    ensures StrictlySorted(r)
    ensures forall s :: s in r <==> s != "" && exists k :: 0 <= k < |lines| && ExtractSymbol(lines[k]) == s
    ensures forall k :: 0 <= k < |r| ==> IsSymbolName(r[k])
  {
    var r := SortedSet(FoundSymbols(lines));
    assert forall k :: 0 <= k < |r| ==> r[k] in r;
    r
  }

  /** The generated lines: one per symbol, in the same order. */
  function ConvertedLines(symbols: seq<string>): (r: seq<string>)
    ensures |r| == |symbols| && forall i :: 0 <= i < |symbols| ==> r[i] == BuildLine(symbols[i])
  {
    seq(|symbols|, i requires 0 <= i < |symbols| => BuildLine(symbols[i]))
  }

  /**
   * The text main writes to id128-constants.h from the lines of
   * sd-messages.h and of id128-defines.h, read in that order. `main` runs
   * the `AsWritten` reading; `Corrected` is the one that keeps continued
   * definitions. The headers are read inside a generator expression, so
   * a StopIteration from a header leaves it as the RuntimeError of PEP 479.
   */
  function GenerateConstants(messages: seq<string>, defines: seq<string>, mode: Reading): (r: Result<string, Exc>)
    ensures r.Err? ==> r.error == RuntimeError("generator raised StopIteration")
    ensures r.Ok? <==> DefineLines(messages, mode).Ok? && DefineLines(defines, mode).Ok?
  {
    match DefineLines(messages, mode)
    case Err(_) => Err(GeneratorStopped)
    case Ok(first) =>
      match DefineLines(defines, mode)
      case Err(_) => Err(GeneratorStopped)
      case Ok(second) => Ok(Join(ConvertedLines(Symbols(first + second)), '\n') + "\n")
  }

  /** What a StopIteration escaping a generator's frame becomes (PEP 479). */
  const GeneratorStopped: Exc := RuntimeError("generator raised StopIteration")

  /**
   * A header whose last line is a kept definition ending in a backslash
   * with no newline after it: `next` finds no line, and main stops with
   * the RuntimeError rather than StopIteration.
   */
  lemma GeneratedCutOffHeader(messages: seq<string>, defines: seq<string>)
    requires messages != [] && Kept(messages[|messages| - 1]) && EndsWith(messages[|messages| - 1], "\\")
    requires forall k :: 0 <= k < |messages| - 1 ==> EndsWith(messages[k], "\n")
    ensures GenerateConstants(messages, defines, AsWritten) == Err(RuntimeError("generator raised StopIteration"))
  {
    CutOffStops(messages);
  }

  /** extract_define_lines on such a header raises StopIteration. */
  lemma {:induction false} CutOffStops(lines: seq<string>)
    requires lines != [] && Kept(lines[|lines| - 1]) && EndsWith(lines[|lines| - 1], "\\")
    requires forall k :: 0 <= k < |lines| - 1 ==> EndsWith(lines[k], "\n")
    ensures DefineLines(lines, AsWritten) == Err(StopIteration)
    decreases |lines|
  {
    if |lines| > 1 {
      var l := lines[0];
      assert l[|l| - 1..] == "\n";
      assert !Continues(l, AsWritten);
      CutOffStops(lines[1..]);
    }
  }

  /**
   * On headers whose every line ends in a newline, main as written never
   * fails, and its output is built from the kept lines of both headers,
   * each taken on its own.
   */
  lemma GeneratedAsWritten(messages: seq<string>, defines: seq<string>)
    requires forall k :: 0 <= k < |messages| ==> EndsWith(messages[k], "\n")
    requires forall k :: 0 <= k < |defines| ==> EndsWith(defines[k], "\n")
    ensures GenerateConstants(messages, defines, AsWritten)
      == Ok(Join(ConvertedLines(Symbols(CollapsedKept(messages) + CollapsedKept(defines))), '\n') + "\n")
  {
    AsWrittenNeverJoins(messages);
    AsWrittenNeverJoins(defines);
  }

  /** A generated line holds no newline. */
  lemma BuildLineOneLine(name: string)
    requires IsSymbolName(name)
    ensures '\n' !in BuildLine(name)
  {
    var r := BuildLine(name);
    forall k | 0 <= k < |r|
      ensures r[k] != '\n'
    {
      if 11 <= k < 11 + |name| {
        assert r[k] == name[k - 11];
      } else if 14 + |name| <= k < 14 + 2 * |name| {
        assert r[k] == name[k - 14 - |name|];
      }
    }
  }

  /**
   * The file holds exactly one line per symbol, in sorted order, each
   * the line built for that symbol.
   */
  lemma GeneratedOnePerSymbol(messages: seq<string>, defines: seq<string>, mode: Reading)
    requires GenerateConstants(messages, defines, mode).Ok?
    ensures var text := GenerateConstants(messages, defines, mode).value;
      var symbols := Symbols(DefineLines(messages, mode).value + DefineLines(defines, mode).value);
      text != [] && text[|text| - 1] == '\n'
      && (|symbols| >= 1 ==> Split(text[..|text| - 1], '\n') == ConvertedLines(symbols))
  {
    var symbols := Symbols(DefineLines(messages, mode).value + DefineLines(defines, mode).value);
    var lines := ConvertedLines(symbols);
    var body := Join(lines, '\n');
    assert (body + "\n")[..|body + "\n"| - 1] == body;
    if |symbols| >= 1 {
      forall k | 0 <= k < |lines|
        ensures '\n' !in lines[k]
      {
        BuildLineOneLine(symbols[k]);
      }
      SplitJoin(lines, '\n');
    }
  }
}
