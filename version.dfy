/**
 * generate_version.py: a PEP 440 version from the output of
 * `git describe --tags`. On a tag the version is the tag itself; past
 * one it is the next version with a developmental-release segment
 * `.dev<commits>` and a local segment `+<commit>.d<YYYYMMDD>`.
 */
module Version {
  import opened Base
  import opened PyText

  /** The message `int()` raises for text that is not a decimal integer. */
  const INT_LITERAL: string := "invalid literal for int() with base 10"
  /** The message raised when `commits_since_tag, commit = rest` gets one item. */
  const UNPACK: string := "not enough values to unpack (expected 2, got 1)"

  /** A `datetime`: its year, month and day are in range by construction. */
  datatype DateTime = DateTime(year: nat, month: nat, day: nat)
  type Date = t: DateTime | 1 <= t.year <= 9999 && 1 <= t.month <= 12 && 1 <= t.day <= 31
    witness DateTime(1970, 1, 1)

  /** `s.removeprefix("v")`: the first character goes only when it is a literal `v`. */
  function RemoveV(s: string): (r: string)
    ensures s != [] && s[0] == 'v' ==> s == "v" + r
    ensures s == [] || s[0] != 'v' ==> r == s
  {
    if s != [] && s[0] == 'v' then s[1..] else s
  }

  /**
   * `desc.removeprefix("v").strip()`: the `v` is looked for before the
   * white space is stripped, so one after leading white space stays.
   */
  function Describe(desc: string): (r: string)
    ensures desc != [] && IsPySpace(desc[0]) ==> r == Strip(desc)
    ensures desc != [] && desc[0] == 'v' ==> r == Strip(desc[1..])
  {
    Strip(RemoveV(desc))
  }

  /**
   * `int(s)` for a decimal literal: white space around it, an optional
   * sign, then at least one ASCII digit.
   */
  function ParseInt(s: string): (r: Result<int, Exc>)
    ensures r.Err? ==> r == Err(ValueError(INT_LITERAL))
    ensures r.Ok? ==> Strip(s) != [] && (r.value < 0 ==> Strip(s)[0] == '-')
  {
    var t := Strip(s);
    var body := if t != [] && (t[0] == '-' || t[0] == '+') then t[1..] else t;
    if body != [] && AllDigits(body) then
      var magnitude: int := DigitsValue(body);
      Ok(if t[0] == '-' then -magnitude else magnitude)
    else Err(ValueError(INT_LITERAL))
  }

  /** A run of digits is read as its value. */
  lemma ParseDigits(t: string)
    requires t != [] && AllDigits(t)
    ensures ParseInt(t) == Ok(DigitsValue(t))
  {
    StripKeeps(t);
  }

  /** A minus sign before a run of digits negates its value. */
  lemma ParseNegativeDigits(t: string)
    requires t != [] && AllDigits(t)
    ensures ParseInt("-" + t) == Ok(-(DigitsValue(t) as int))
  {
    var m := "-" + t;
    assert m[|m| - 1] == t[|t| - 1] && m[1..] == t;
    StripKeeps(m);
  }

  /** `int(str(i)) == i`. */
  lemma ParseIntText(i: int)
    ensures ParseInt(IntText(i)) == Ok(i)
  {
    var n: nat := if i < 0 then -i else i;
    NatTextDenotes(n);
    if i < 0 {
      ParseNegativeDigits(NatText(n));
    } else {
      ParseDigits(NatText(n));
    }
  }

  /** `str(i)` is written with a minus sign and digits only. */
  lemma IntTextChars(i: int)
    ensures forall k :: 0 <= k < |IntText(i)| ==> IntText(i)[k] == '-' || IsDigit(IntText(i)[k])
  {
    var n: nat := if i < 0 then -i else i;
    NatTextDenotes(n);
  }

  /** `str(v)` for each item. */
  function IntTexts(ns: seq<int>): (r: seq<string>)
    ensures |r| == |ns| && forall i :: 0 <= i < |ns| ==> r[i] == IntText(ns[i])
  {
    seq(|ns|, i requires 0 <= i < |ns| => IntText(ns[i]))
  }

  /** `".".join(str(v) for v in parts)`. */
  function JoinInts(ns: seq<int>): string
  {
    Join(IntTexts(ns), '.')
  }

  /** The next version: every component kept but the last, which goes up by one. */
  function NextVersion(ns: seq<int>): (r: seq<int>)
    requires |ns| >= 1
    ensures |r| == |ns|
    ensures forall i :: 0 <= i < |ns| - 1 ==> r[i] == ns[i]
    ensures r[|r| - 1] == ns[|ns| - 1] + 1
  {
    ns[..|ns| - 1] + [ns[|ns| - 1] + 1]
  }

  /** The value of one digit. */
  lemma DigitsOne(c: char)
    requires IsDigit(c)
    ensures DigitsValue([c]) == c as int - '0' as int
  {
    assert [c][..0] == [];
  }

  /** `"%02d" % n`. */
  function Pad2(n: nat): (r: string)
    requires n < 100
    ensures |r| == 2 && AllDigits(r) && DigitsValue(r) == n
  {
    var r := [DigitChar(n / 10), DigitChar(n % 10)];
    assert r[..1] == [DigitChar(n / 10)];
    DigitsOne(DigitChar(n / 10));
    r
  }

  /** Two more digits multiply the value in front of them by a hundred. */
  lemma DigitsAppend2(a: string, p: string)
    requires AllDigits(a) && AllDigits(p) && |p| == 2
    ensures AllDigits(a + p) && DigitsValue(a + p) == DigitsValue(a) * 100 + DigitsValue(p)
  {
    var s := a + p;
    var d0 := p[0] as int - '0' as int;
    var d1 := p[1] as int - '0' as int;
    assert s[..|s| - 1] == a + [p[0]];
    assert (a + [p[0]])[..|a|] == a;
    assert DigitsValue(a + [p[0]]) == DigitsValue(a) * 10 + d0;
    assert DigitsValue(s) == DigitsValue(a + [p[0]]) * 10 + d1;
    assert p[..1] == [p[0]];
    DigitsOne(p[0]);
    assert DigitsValue(p) == d0 * 10 + d1;
  }

  /** A year from 1000 on has four digits. */
  lemma YearDigits(y: nat)
    ensures 1000 <= y <= 9999 ==> |NatText(y)| == 4
  {
    if 1000 <= y <= 9999 {
      assert NatText(y) == NatText(y / 10) + [DigitChar(y % 10)];
      assert NatText(y / 10) == NatText(y / 100) + [DigitChar(y / 10 % 10)];
      assert NatText(y / 100) == NatText(y / 1000) + [DigitChar(y / 100 % 10)];
    }
  }

  /**
   * `f"{t:%Y%m%d}"`: the year as the C library writes it, then month and
   * day in two digits each; from the year 1000 on, eight digits that
   * read as year, month and day.
   */
  function DateStamp(t: Date): (r: string)
    ensures AllDigits(r)
    ensures t.year >= 1000 ==> |r| == 8 && DigitsValue(r) == t.year * 10000 + t.month * 100 + t.day
  {
    NatTextDenotes(t.year);
    var y := NatText(t.year);
    DigitsAppend2(y, Pad2(t.month));
    DigitsAppend2(y + Pad2(t.month), Pad2(t.day));
    YearDigits(t.year);
    y + Pad2(t.month) + Pad2(t.day)
  }

  /** `f".dev{commits_since_tag}+{commit}.d{t:%Y%m%d}"`. */
  function DevTrailer(commitsSinceTag: string, commit: string, t: Date): string
  {
    ".dev" + commitsSinceTag + "+" + commit + ".d" + DateStamp(t)
  }

  /**
   * version_from_git_describe with the timestamp already chosen. The
   * description is split at its first two dashes; with none it is the
   * version, otherwise each dot-separated component of the tag must be an
   * integer and exactly two more pieces must follow.
   */
  function GitDescribeVersion(desc: string, t: Date): (r: Result<string, Exc>)
    ensures '-' !in Describe(desc) ==> r == Ok(Describe(desc))
    ensures '-' in Describe(desc) && r.Ok? ==> |SplitN(Describe(desc), '-', 2)| == 3
    ensures r.Err? ==> r.error.ValueError?
  {
    var d := Describe(desc);
    var pieces := SplitN(d, '-', 2);
    if |pieces| == 1 then Ok(pieces[0])
    else
      match Collect(Split(pieces[0], '.'), ParseInt)
      case Err(e) => Err(e)
      case Ok(ns) =>
        if |pieces| != 3 then Err(ValueError(UNPACK))
        else Ok(JoinInts(NextVersion(ns)) + DevTrailer(pieces[1], pieces[2], t))
  }

  /** `version_parts.append(version_parts.pop() + 1)`. */
  method BumpLast(versionParts: seq<int>) returns (r: seq<int>)
    requires |versionParts| >= 1
    ensures r == NextVersion(versionParts)
  {
    r := versionParts;
    var last := r[|r| - 1];
    r := r[..|r| - 1];
    r := r + [last + 1];
  }

  /**
   * version_from_git_describe: `version_parts` is popped and appended to
   * in place; the timestamp falls back on the clock reading `now`.
   */
  method VersionFromGitDescribe(desc: string, timestamp: Option<Date>, now: Date) returns (r: Result<string, Exc>)
    ensures r == GitDescribeVersion(desc, timestamp.GetOr(now))
  {
    var d := Describe(desc);
    var pieces := SplitN(d, '-', 2);
    var version := pieces[0];
    if |pieces| == 1 {
      return Ok(version);
    }
    var parsed := Collect(Split(version, '.'), ParseInt);
    if parsed.Err? {
      return Err(parsed.error);
    }
    var versionParts := parsed.value;
    versionParts := BumpLast(versionParts);
    if |pieces| != 3 {
      return Err(ValueError(UNPACK));
    }
    var commitsSinceTag, commit := pieces[1], pieces[2];
    var t := timestamp.GetOr(now);
    return Ok(JoinInts(versionParts) + DevTrailer(commitsSinceTag, commit, t));
  }

  /**
   * The split takes at most two dashes: the commit piece keeps any dash
   * after the second.
   */
  lemma DescribeSplit(v: string, c: string, commit: string)
    requires '-' !in v && '-' !in c
    ensures SplitN(v + "-" + c + "-" + commit, '-', 2) == [v, c, commit]
  {
    var tail := c + "-" + commit;
    assert v + "-" + c + "-" + commit == v + ['-'] + tail;
    SplitNAfterPiece(v, '-', tail, 2);
    assert tail == c + ['-'] + commit;
    SplitNAfterPiece(c, '-', commit, 1);
  }

  /** The components of a version written by `JoinInts` parse back. */
  lemma ParseJoinInts(ns: seq<int>)
    requires |ns| >= 1
    ensures Collect(Split(JoinInts(ns), '.'), ParseInt) == Ok(ns)
  {
    var texts := IntTexts(ns);
    forall k | 0 <= k < |texts|
      ensures '.' !in texts[k] && ParseInt(texts[k]) == Ok(ns[k])
    {
      ParseIntText(ns[k]);
      IntTextChars(ns[k]);
    }
    SplitJoin(texts, '.');
    CollectAll(texts, ParseInt, ns);
  }

  /** Version components that are natural numbers. */
  predicate Naturals(ns: seq<int>)
  {
    forall k :: 0 <= k < |ns| ==> ns[k] >= 0
  }

  /** A version written from natural numbers starts with a digit and has no dash. */
  lemma NumericTagText(ns: seq<int>)
    requires |ns| >= 1 && Naturals(ns)
    ensures JoinInts(ns) != [] && IsDigit(JoinInts(ns)[0]) && '-' !in JoinInts(ns)
  {
    var texts := IntTexts(ns);
    forall k | 0 <= k < |texts|
      ensures '-' !in texts[k]
    {
      NatTextDenotes(ns[k]);
    }
    NoDashInJoin(texts, '.');
    NatTextDenotes(ns[0]);
    if |ns| > 1 {
      assert JoinInts(ns) == texts[0] + ['.'] + Join(texts[1..], '.');
    }
  }

  /** A description that neither starts nor ends with white space is only stripped of its `v`. */
  lemma DescribeTrimmed(d: string)
    requires d != [] && !IsPySpace(d[0]) && !IsPySpace(d[|d| - 1])
    ensures Describe("v" + d) == d
  {
    assert ("v" + d)[1..] == d;
    StripKeeps(d);
  }

  /** `v<tag>-<commits>-<commit>` past a numeric tag splits into the tag, the count and the commit. */
  lemma DevDescribeSplit(ns: seq<int>, commits: string, commit: string)
    requires |ns| >= 1 && Naturals(ns) && '-' !in commits
    requires commit != [] && !IsPySpace(commit[|commit| - 1])
    ensures SplitN(Describe("v" + (JoinInts(ns) + "-" + commits + "-" + commit)), '-', 2)
      == [JoinInts(ns), commits, commit]
  {
    var v := JoinInts(ns);
    NumericTagText(ns);
    var d := v + "-" + commits + "-" + commit;
    assert d[0] == v[0] && d[|d| - 1] == commit[|commit| - 1];
    DescribeTrimmed(d);
    DescribeSplit(v, commits, commit);
  }

  /**
   * `v<tag>-<commits>-<commit>` past a numeric tag: the tag's last
   * component goes up by one and the trailer names the commits, the
   * commit and the date.
   */
  lemma DevVersionOfTag(ns: seq<int>, commits: string, commit: string, t: Date)
    requires |ns| >= 1 && Naturals(ns) && '-' !in commits
    requires commit != [] && !IsPySpace(commit[|commit| - 1])
    ensures GitDescribeVersion("v" + (JoinInts(ns) + "-" + commits + "-" + commit), t)
      == Ok(JoinInts(NextVersion(ns)) + DevTrailer(commits, commit, t))
  {
    DevDescribeSplit(ns, commits, commit);
    ParseJoinInts(ns);
    DevVersionOfPieces("v" + (JoinInts(ns) + "-" + commits + "-" + commit), JoinInts(ns), ns, commits, commit, t);
  }

  /** The outcome once the description is known to split into a parsed tag and two pieces. */
  lemma DevVersionOfPieces(desc: string, v: string, ns: seq<int>, commits: string, commit: string, t: Date)
    requires |ns| >= 1
    requires SplitN(Describe(desc), '-', 2) == [v, commits, commit]
    requires Collect(Split(v, '.'), ParseInt) == Ok(ns)
    ensures GitDescribeVersion(desc, t) == Ok(JoinInts(NextVersion(ns)) + DevTrailer(commits, commit, t))
  {
  }

  /** Pieces without a dash joined by a dot have no dash. */
  lemma {:induction false} NoDashInJoin(parts: seq<string>, sep: char)
    requires sep != '-'
    requires forall k :: 0 <= k < |parts| ==> '-' !in parts[k]
    ensures '-' !in Join(parts, sep)
    decreases |parts|
  {
    if |parts| >= 2 {
      NoDashInJoin(parts[1..], sep);
      var t := Join(parts[1..], sep);
      assert Join(parts, sep) == parts[0] + [sep] + t;
    }
  }

  /** `v<tag>-<commits>` past a numeric tag splits into two pieces. */
  lemma OneDashSplit(ns: seq<int>, commits: string)
    requires |ns| >= 1 && Naturals(ns) && '-' !in commits
    requires commits != [] && !IsPySpace(commits[|commits| - 1])
    ensures SplitN(Describe("v" + (JoinInts(ns) + "-" + commits)), '-', 2) == [JoinInts(ns), commits]
  {
    var v := JoinInts(ns);
    NumericTagText(ns);
    var d := v + "-" + commits;
    assert d[0] == v[0] && d[|d| - 1] == commits[|commits| - 1];
    DescribeTrimmed(d);
    assert d == v + ['-'] + commits;
    SplitNAfterPiece(v, '-', commits, 2);
    SplitNWhole(commits, '-', 1);
  }

  /** A description with a single dash past a numeric tag fails to unpack. */
  lemma OneDashFails(ns: seq<int>, commits: string, t: Date)
    requires |ns| >= 1 && Naturals(ns) && '-' !in commits
    requires commits != [] && !IsPySpace(commits[|commits| - 1])
    ensures GitDescribeVersion("v" + (JoinInts(ns) + "-" + commits), t) == Err(ValueError(UNPACK))
  {
    OneDashSplit(ns, commits);
    ParseJoinInts(ns);
  }

  /**
   * version_from_archival_txt: the description is `describe-name`, and
   * the timestamp, when none is given, is `node-date` read by
   * `datetime.fromisoformat` (the `fromIso` parameter).
   */
  function VersionFromArchivalTxt(info: map<string, string>, timestamp: Option<Date>,
                                  fromIso: string -> Result<Date, Exc>): (r: Result<string, Exc>)
    ensures "describe-name" !in info ==> r == Err(KeyError(PyStr("describe-name")))
    ensures "describe-name" in info && timestamp.Some? ==>
      r == GitDescribeVersion(info["describe-name"], timestamp.value)
    ensures "describe-name" in info && timestamp.None? && "node-date" !in info ==>
      r == Err(KeyError(PyStr("node-date")))
    ensures "describe-name" in info && timestamp.None? && "node-date" in info ==>
      r == match fromIso(info["node-date"])
        case Err(e) => Err(e)
        case Ok(t) => GitDescribeVersion(info["describe-name"], t)
  {
    if "describe-name" !in info then Err(KeyError(PyStr("describe-name")))
    else
      var desc := info["describe-name"];
      match timestamp
      case Some(t) => GitDescribeVersion(desc, t)
      case None =>
        if "node-date" !in info then Err(KeyError(PyStr("node-date")))
        else
          match fromIso(info["node-date"])
          case Err(e) => Err(e)
          case Ok(t) => GitDescribeVersion(desc, t)
  }
}
