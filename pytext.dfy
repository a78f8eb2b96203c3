/**
 * The Python string methods the build scripts rely on: `str.isspace`,
 * `strip`, `split(sep)`, `split(sep, maxsplit)`, `split()` and `join`.
 */
module PyText {
  import opened Base

  /** `str.isspace` for one character: the Unicode white space Python recognises. */
  predicate IsPySpace(c: char)
  {
    (9 <= c as int <= 13) || (28 <= c as int <= 32) || c as int == 0x85 || c as int == 0xA0
    || c as int == 0x1680 || (0x2000 <= c as int <= 0x200A) || c as int == 0x2028 || c as int == 0x2029
    || c as int == 0x202F || c as int == 0x205F || c as int == 0x3000
  }

  /** A string without white space. */
  predicate NoSpace(s: string)
  {
    forall k :: 0 <= k < |s| ==> !IsPySpace(s[k])
  }

  /** `s.lstrip()`. */
  function LStrip(s: string): (r: string)
    ensures |r| <= |s| && r == s[|s| - |r|..]
    ensures forall k :: 0 <= k < |s| - |r| ==> IsPySpace(s[k])
    ensures r != [] ==> !IsPySpace(r[0])
  {
    if s == [] || !IsPySpace(s[0]) then s else LStrip(s[1..])
  }

  /** `s.rstrip()`. */
  function RStrip(s: string): (r: string)
    ensures |r| <= |s| && r == s[..|r|]
    ensures forall k :: |r| <= k < |s| ==> IsPySpace(s[k])
    ensures r != [] ==> !IsPySpace(r[|r| - 1])
  {
    if s == [] || !IsPySpace(s[|s| - 1]) then s else RStrip(s[..|s| - 1])
  }

  /** Where `s.strip()` starts: the length of the leading white space. */
  function StripStart(s: string): nat
  {
    |s| - |LStrip(s)|
  }

  /** `s.strip()`: white space removed from both ends, and only white space. */
  function Strip(s: string): (r: string)
    ensures r != [] ==> !IsPySpace(r[0]) && !IsPySpace(r[|r| - 1])
    ensures StripStart(s) + |r| <= |s| && r == s[StripStart(s)..StripStart(s) + |r|]
    ensures forall k :: 0 <= k < StripStart(s) ==> IsPySpace(s[k])
    ensures forall k :: StripStart(s) + |r| <= k < |s| ==> IsPySpace(s[k])
  {
    var l := LStrip(s);
    var r := RStrip(l);
    var a := |s| - |l|;
    assert r == s[a..a + |r|];
    r
  }

  /** A string that neither starts nor ends with white space is its own strip. */
  lemma StripKeeps(s: string)
    requires s == [] || (!IsPySpace(s[0]) && !IsPySpace(s[|s| - 1]))
    ensures Strip(s) == s
  {
  }

  /** The first index at or after `from` holding `c`. */
  function Find(s: string, c: char, from: nat): (r: Option<nat>)
    requires from <= |s|
    ensures r.Some? ==> from <= r.value < |s| && s[r.value] == c
    ensures r.Some? ==> forall k :: from <= k < r.value ==> s[k] != c
    ensures r.None? ==> forall k :: from <= k < |s| ==> s[k] != c
    decreases |s| - from
  {
    if from == |s| then None else if s[from] == c then Some(from) else Find(s, c, from + 1)
  }

  /** `sep.join(parts)`. */
  function Join(parts: seq<string>, sep: char): string
  {
    if parts == [] then ""
    else if |parts| == 1 then parts[0]
    else parts[0] + [sep] + Join(parts[1..], sep)
  }

  /** `s.split(sep)`: the pieces between the separators, empty ones included. */
  function Split(s: string, sep: char): (r: seq<string>)
    ensures |r| >= 1
    ensures Join(r, sep) == s
    ensures forall k :: 0 <= k < |r| ==> sep !in r[k]
    decreases |s|
  {
    match Find(s, sep, 0)
    case None => [s]
    case Some(i) =>
      assert s == s[..i] + [sep] + s[i + 1..];
      [s[..i]] + Split(s[i + 1..], sep)
  }

  /**
   * `s.split(sep, maxsplit=n)`: at most `n` splits, made at the first
   * separators; the last piece keeps any later ones.
   */
  function SplitN(s: string, sep: char, n: nat): (r: seq<string>)
    ensures 1 <= |r| <= n + 1
    ensures Join(r, sep) == s
    ensures forall k :: 0 <= k < |r| - 1 ==> sep !in r[k]
    ensures |r| < n + 1 ==> sep !in r[|r| - 1]
    ensures |r| == 1 <==> sep !in s || n == 0
    decreases |s|
  {
    match Find(s, sep, 0)
    case None => [s]
    case Some(i) =>
      if n == 0 then [s]
      else
        assert s == s[..i] + [sep] + s[i + 1..];
        [s[..i]] + SplitN(s[i + 1..], sep, n - 1)
  }

  /** Text without the separator is not split. */
  lemma SplitNWhole(s: string, sep: char, n: nat)
    requires sep !in s
    ensures SplitN(s, sep, n) == [s]
  {
    assert Find(s, sep, 0).None?;
  }

  /** `sep` found where a piece without it ends. */
  lemma FindAfterPiece(p: string, sep: char, rest: string)
    requires sep !in p
    ensures Find(p + [sep] + rest, sep, 0) == Some(|p|)
    ensures (p + [sep] + rest)[..|p|] == p && (p + [sep] + rest)[|p| + 1..] == rest
  {
    var s := p + [sep] + rest;
    assert forall k :: 0 <= k < |p| ==> s[k] == p[k];
    FindFrom(s, sep, 0, |p|);
  }

  /** Splitting past a first piece without the separator. */
  lemma SplitNAfterPiece(p: string, sep: char, rest: string, n: nat)
    requires sep !in p && n >= 1
    ensures SplitN(p + [sep] + rest, sep, n) == [p] + SplitN(rest, sep, n - 1)
  {
    FindAfterPiece(p, sep, rest);
  }

  lemma {:induction false} FindFrom(s: string, c: char, from: nat, at: nat)
    requires from <= at < |s| && s[at] == c
    requires forall k :: from <= k < at ==> s[k] != c
    ensures Find(s, c, from) == Some(at)
    decreases at - from
  {
    if from < at {
      FindFrom(s, c, from + 1, at);
    }
  }

  /** Splitting the join of pieces that hold no separator gives the pieces back. */
  lemma {:induction false} SplitJoin(parts: seq<string>, sep: char)
    requires |parts| >= 1
    requires forall k :: 0 <= k < |parts| ==> sep !in parts[k]
    ensures Split(Join(parts, sep), sep) == parts
    decreases |parts|
  {
    if |parts| == 1 {
      assert Find(parts[0], sep, 0).None?;
    } else {
      var rest := Join(parts[1..], sep);
      FindAfterPiece(parts[0], sep, rest);
      SplitJoin(parts[1..], sep);
      assert parts == [parts[0]] + parts[1..];
    }
  }

  /** The end of the run of non-space characters starting at `i`. */
  function WordEnd(s: string, i: nat): (j: nat)
    requires i <= |s|
    ensures i <= j <= |s|
    ensures forall k :: i <= k < j ==> !IsPySpace(s[k])
    ensures j < |s| ==> IsPySpace(s[j])
    decreases |s| - i
  {
    if i == |s| || IsPySpace(s[i]) then i else WordEnd(s, i + 1)
  }

  /** `s.split()`: the maximal runs of non-space characters, in order. */
  function Words(s: string): (ws: seq<string>)
    ensures forall k :: 0 <= k < |ws| ==> |ws[k]| > 0 && NoSpace(ws[k])
    decreases |s|
  {
    if s == [] then []
    else if IsPySpace(s[0]) then Words(s[1..])
    else
      var e := WordEnd(s, 0);
      [s[..e]] + Words(s[e..])
  }

  /** `' '.join(s.split())`: white space runs collapsed to one space, the ends trimmed. */
  function Collapse(s: string): (r: string)
  {
    Join(Words(s), ' ')
  }

  /** A space-separated sequence of words has no other white space and no empty word. */
  predicate Collapsed(r: string)
  {
    (r != [] ==> r[0] != ' ' && r[|r| - 1] != ' ')
    && (forall k :: 0 <= k < |r| ==> IsPySpace(r[k]) ==> r[k] == ' ')
    && (forall k :: 0 <= k < |r| - 1 ==> !(r[k] == ' ' && r[k + 1] == ' '))
  }

  /** Joining nonempty space-free words with single spaces gives a collapsed string. */
  lemma {:induction false} JoinWordsCollapsed(ws: seq<string>)
    requires forall k :: 0 <= k < |ws| ==> |ws[k]| > 0 && NoSpace(ws[k])
    ensures Collapsed(Join(ws, ' '))
    ensures |ws| >= 1 ==> |Join(ws, ' ')| >= |ws[0]| && Join(ws, ' ')[..|ws[0]|] == ws[0]
    decreases |ws|
  {
    if |ws| >= 2 {
      JoinWordsCollapsed(ws[1..]);
      var w := ws[0];
      var t := Join(ws[1..], ' ');
      var r := w + [' '] + t;
      assert Join(ws, ' ') == r;
      assert t[0] == ws[1][0];
      forall k | 0 <= k < |r| && IsPySpace(r[k])
        ensures r[k] == ' '
      {
        if k > |w| {
          assert r[k] == t[k - |w| - 1];
        }
      }
      forall k | 0 <= k < |r| - 1
        ensures !(r[k] == ' ' && r[k + 1] == ' ')
      {
        if k > |w| {
          assert r[k] == t[k - |w| - 1] && r[k + 1] == t[k - |w|];
        }
      }
    }
  }

  /** The collapsed form is collapsed. */
  lemma CollapseCollapsed(s: string)
    ensures Collapsed(Collapse(s))
  {
    JoinWordsCollapsed(Words(s));
  }

  /** Words after leading white space are the words of the rest. */
  lemma {:induction false} WordsOfJoin(ws: seq<string>)
    requires forall k :: 0 <= k < |ws| ==> |ws[k]| > 0 && NoSpace(ws[k])
    ensures Words(Join(ws, ' ')) == ws
    decreases |ws|
  {
    if ws == [] {
    } else {
      var w := ws[0];
      var t := Join(ws[1..], ' ');
      var s := Join(ws, ' ');
      WordRun(w, if |ws| == 1 then [] else [' '] + t);
      if |ws| == 1 {
        assert s == w + [];
      } else {
        assert s == w + ([' '] + t);
        WordsOfJoin(ws[1..]);
        assert Words([' '] + t) == Words(t) by {
          assert ([' '] + t)[1..] == t;
        }
      }
      assert ws == [w] + ws[1..];
    }
  }

  /** A word followed by nothing or by white space is taken whole. */
  lemma WordRun(w: string, rest: string)
    requires |w| > 0 && NoSpace(w)
    requires rest != [] ==> IsPySpace(rest[0])
    ensures Words(w + rest) == [w] + Words(rest)
  {
    var s := w + rest;
    assert forall k :: 0 <= k < |w| ==> s[k] == w[k];
    WordEndAt(s, 0, |w|);
    assert s[..|w|] == w && s[|w|..] == rest;
  }

  lemma {:induction false} WordEndAt(s: string, i: nat, j: nat)
    requires i <= j <= |s|
    requires forall k :: i <= k < j ==> !IsPySpace(s[k])
    requires j < |s| ==> IsPySpace(s[j])
    ensures WordEnd(s, i) == j
    decreases j - i
  {
    if i < j {
      WordEndAt(s, i + 1, j);
    }
  }

  /** Collapsing twice is collapsing once. */
  lemma CollapseIdempotent(s: string)
    ensures Collapse(Collapse(s)) == Collapse(s)
  {
    WordsOfJoin(Words(s));
  }
}
