/**
 * The pure-Python layer over the reader binding (systemd/journal.py): the
 * `Reader` subclass that converts field values, adds matches and turns the
 * binding's `_next`/`_get_all` into entries; the `FIELD=value` line builder
 * shared with `send`; field-name validation; and the logging handler's
 * level-to-priority map and keyword checks.
 */
module JournalPy {
  import opened Base
  import Utf8
  import opened Engine
  import Reader
  import opened PyUtil

  // ------------------------------------------------- logging priorities

  // The `logging` module's level numbers.
  const NOTSET: int := 0
  const DEBUG: int := 10
  const INFO: int := 20
  const WARNING: int := 30
  const ERROR: int := 40
  const CRITICAL: int := 50

  // syslog priorities.
  const LOG_EMERG: int := 0
  const LOG_ALERT: int := 1
  const LOG_CRIT: int := 2
  const LOG_ERR: int := 3
  const LOG_WARNING: int := 4
  const LOG_NOTICE: int := 5
  const LOG_INFO: int := 6
  const LOG_DEBUG: int := 7

  /**
   * JournalHandler.map_priority: each level number goes to the priority of
   * the first standard level at or above it; anything above CRITICAL is an
   * alert.
   */
  function MapPriority(levelno: int): (p: int)
    ensures LOG_ALERT <= p <= LOG_DEBUG && p != LOG_NOTICE
  {
    if levelno <= DEBUG then LOG_DEBUG
    else if levelno <= INFO then LOG_INFO
    else if levelno <= WARNING then LOG_WARNING
    else if levelno <= ERROR then LOG_ERR
    else if levelno <= CRITICAL then LOG_CRIT
    else LOG_ALERT
  }

  /** The standard levels, most verbose first, with the priority each stands for. */
  const LEVELS: seq<(int, int)> :=
    [(DEBUG, LOG_DEBUG), (INFO, LOG_INFO), (WARNING, LOG_WARNING), (ERROR, LOG_ERR), (CRITICAL, LOG_CRIT)]

  /** The priority of the first level in `table` at or above `levelno`, or LOG_ALERT past the end. */
  function Ceiling(table: seq<(int, int)>, levelno: int): int
  {
    if table == [] then LOG_ALERT
    else if levelno <= table[0].0 then table[0].1
    else Ceiling(table[1..], levelno)
  }

  /** map_priority agrees with the table reading of the level ladder. */
  lemma MapPriorityIsCeiling(levelno: int)
    ensures MapPriority(levelno) == Ceiling(LEVELS, levelno)
  {
    var t1 := LEVELS[1..];
    var t2 := t1[1..];
    var t3 := t2[1..];
    var t4 := t3[1..];
    assert t4[1..] == [];
    if levelno > DEBUG {
      assert Ceiling(LEVELS, levelno) == Ceiling(t1, levelno);
      if levelno > INFO {
        assert Ceiling(t1, levelno) == Ceiling(t2, levelno);
        if levelno > WARNING {
          assert Ceiling(t2, levelno) == Ceiling(t3, levelno);
          if levelno > ERROR {
            assert Ceiling(t3, levelno) == Ceiling(t4, levelno);
            if levelno > CRITICAL {
              assert Ceiling(t4, levelno) == Ceiling(t4[1..], levelno);
            }
          }
        }
      }
    }
  }

  /** A more severe level never maps to a less urgent priority. */
  lemma MapPriorityMonotone(a: int, b: int)
    requires a <= b
    ensures MapPriority(b) <= MapPriority(a)
  {
  }

  /** Each standard level, and every number up to the next one, maps as the tests expect. */
  lemma MapPriorityStandardLevels()
    ensures MapPriority(NOTSET) == LOG_DEBUG && MapPriority(DEBUG) == LOG_DEBUG
    ensures MapPriority(DEBUG + 1) == LOG_INFO && MapPriority(INFO) == LOG_INFO
    ensures MapPriority(INFO + 1) == LOG_WARNING && MapPriority(WARNING) == LOG_WARNING
    ensures MapPriority(WARNING + 1) == LOG_ERR && MapPriority(ERROR) == LOG_ERR
    ensures MapPriority(ERROR + 1) == LOG_CRIT && MapPriority(CRITICAL) == LOG_CRIT
    ensures MapPriority(CRITICAL + 1) == LOG_ALERT
  {
  }

  // ------------------------------------------------- field names

  /**
   * A member of `_IDENT_CHARACTER`. The set is written out with R, T and S
   * out of alphabetical order, but holds all 26 capitals, the digits and `_`.
   */
  predicate IdentChar(c: char)
  {
    ('A' <= c <= 'Z') || ('0' <= c <= '9') || c == '_'
  }

  /** _valid_field_name: the characters of `s` minus the identifier set is empty. */
  function ValidFieldName(s: string): (ok: bool)
    ensures ok <==> forall i :: 0 <= i < |s| ==> IdentChar(s[i])
  {
    var stray := set c | c in s && !IdentChar(c);
    assert forall i :: 0 <= i < |s| && !IdentChar(s[i]) ==> s[i] in stray;
    stray == {}
  }

  /**
   * A valid name the engine also takes as a field name is one that is not
   * empty, not longer than 64 characters and does not start with a digit;
   * the two checks then agree on the encoded name.
   */
  lemma ValidFieldNameIsEngineField(s: string)
    requires 0 < |s| <= 64 && !('0' <= s[0] <= '9')
    ensures ValidFieldName(s) <==> FieldValid(Utf8.Encode(s))
  {
    if ValidFieldName(s) {
      ValidFieldNameEncodes(s);
    } else {
      InvalidFieldNameEncodes(s);
    }
  }

  lemma ValidFieldNameEncodes(s: string)
    requires 0 < |s| <= 64 && !('0' <= s[0] <= '9') && ValidFieldName(s)
    ensures FieldValid(Utf8.Encode(s))
  {
    Utf8.EncodeAscii(s);
    var b := Utf8.Encode(s);
    assert forall i :: 0 <= i < |s| ==> b[i] as int == s[i] as int;
  }

  lemma InvalidFieldNameEncodes(s: string)
    requires 0 < |s| <= 64 && !ValidFieldName(s)
    ensures !FieldValid(Utf8.Encode(s))
  {
    var i :| 0 <= i < |s| && !IdentChar(s[i]);
    if s[i] as int < 0x80 {
      Utf8.EncodeAsciiMember(s, s[i]);
      var b := Utf8.Encode(s);
      var k :| 0 <= k < |b| && b[k] == Ascii(s[i]);
      assert !FieldByte(b[k]);
    } else {
      EncodeHasHighByte(s, i);
    }
  }

  /** A non-ASCII character leaves a byte of 0x80 or more in the encoding. */
  lemma {:induction false} EncodeHasHighByte(s: string, i: nat)
    requires i < |s| && s[i] as int >= 0x80
    ensures exists k :: 0 <= k < |Utf8.Encode(s)| && Utf8.Encode(s)[k] >= 0x80
  {
    if i == 0 {
      assert Utf8.Encode(s)[0] == Utf8.EncodeChar(s[0])[0];
    } else {
      EncodeHasHighByte(s[1..], i - 1);
      var t := Utf8.Encode(s[1..]);
      var k :| 0 <= k < |t| && t[k] >= 0x80;
      var e := Utf8.EncodeChar(s[0]);
      assert Utf8.Encode(s)[|e| + k] == t[k];
    }
  }

  // ------------------------------------------------- FIELD=value lines

  /**
   * _make_line: bytes values give `UTF-8(field) + b'=' + value`, str values
   * `field + '=' + value`, and anything else `field + '=' + str(value)`;
   * `str` is the parameter `show`.
   */
  function MakeLine(field: string, value: Py, show: Py -> string): (line: Py)
    ensures value.PyBytes? <==> line.PyBytes?
    ensures line.PyBytes? || line.PyStr?
  {
    if value.PyBytes? then PyBytes(Utf8.Encode(field) + [EQ] + value.b)
    else if value.PyStr? then PyStr(field + "=" + value.s)
    else PyStr(field + "=" + show(value))
  }

  /** The bytes a value stands for on the wire: bytes as they are, text as UTF-8. */
  function WireValue(value: Py, show: Py -> string): Bytes
  {
    if value.PyBytes? then value.b
    else if value.PyStr? then Utf8.Encode(value.s)
    else Utf8.Encode(show(value))
  }

  /**
   * For a field name without `=`, the line the builder makes splits, at the
   * reader's first `=`, back into the encoded name and the value's bytes.
   */
  lemma MakeLineSplits(field: string, value: Py, show: Py -> string)
    requires '=' !in field
    ensures Reader.MatchBytes(MakeLine(field, value, show)).Some?
    ensures Reader.SplitRecord(Reader.MatchBytes(MakeLine(field, value, show)).value)
      == Ok((Utf8.Encode(field), WireValue(value, show)))
  {
    var f := Utf8.Encode(field);
    Utf8.EncodeAsciiMember(field, '=');
    assert Ascii('=') == EQ;
    if !value.PyBytes? {
      EncodeLine(field, if value.PyStr? then value.s else show(value));
    }
    Reader.SplitJoin(f, WireValue(value, show));
  }

  /** The text line `field=rest` encodes as the encoded name, `=` and the encoded rest. */
  lemma EncodeLine(field: string, rest: string)
    ensures Utf8.Encode(field + "=" + rest) == Utf8.Encode(field) + [EQ] + Utf8.Encode(rest)
  {
    assert field + "=" + rest == field + ("=" + rest);
    Utf8.EncodeAppend(field, "=" + rest);
    Utf8.EncodeAppend("=", rest);
    Utf8.EncodeAscii("=");
  }

  // ------------------------------------------------- converters

  /** A value converter: any callable of one argument. */
  type Converter = Py -> Result<Py, Exc>

  /** ChainMap lookup: the first map holding `key` decides. */
  function ChainGet(maps: seq<map<string, Converter>>, key: string): (f: Option<Converter>)
    ensures f.None? <==> forall i :: 0 <= i < |maps| ==> key !in maps[i]
  {
    if maps == [] then None
    else if key in maps[0] then Some(maps[0][key])
    else ChainGet(maps[1..], key)
  }

  /** The converter chain `__init__` sets up: the caller's map, if any, in front of the defaults. */
  function ChainFor(user: Option<map<string, Converter>>, defaults: map<string, Converter>): (maps: seq<map<string, Converter>>)
    ensures forall key :: (ChainGet(maps, key) ==
      (if user.Some? && key in user.value then Some(user.value[key])
       else if key in defaults then Some(defaults[key])
       else None))
  {
    if user.Some? then [user.value, defaults] else [defaults]
  }

  /** `bytes.decode`, the converter of a field without one: strict UTF-8. */
  function DecodeBytes(v: Py): (r: Result<Py, Exc>)
    ensures v.PyBytes? && Utf8.Decode(v.b).Some? ==> r == Ok(PyStr(Utf8.Decode(v.b).value))
    ensures v.PyBytes? && Utf8.Decode(v.b).None? ==> r == Err(UnicodeDecodeError)
    ensures !v.PyBytes? ==> r == Err(TypeError("descriptor 'decode' for 'bytes' objects doesn't apply to a " + TypeName(v) + " object"))
  {
    match v
    case PyBytes(b) =>
      (match Utf8.Decode(b)
       case Some(s) => Ok(PyStr(s))
       case None => Err(UnicodeDecodeError))
    case _ => Err(TypeError("descriptor 'decode' for 'bytes' objects doesn't apply to a " + TypeName(v) + " object"))
  }

  /**
   * _convert_field: the key's converter, or `bytes.decode`, applied to the
   * value; a ValueError (UnicodeDecodeError included) gives the value back
   * unconverted, any other exception propagates.
   */
  function ConvertWith(maps: seq<map<string, Converter>>, key: string, value: Py): (r: Result<Py, Exc>)
    ensures r.Err? ==> !r.error.IsValueError()
    ensures var out := if ChainGet(maps, key).Some? then ChainGet(maps, key).value(value) else DecodeBytes(value);
      (out.Ok? ==> r == out)
      && (out.Err? && out.error.IsValueError() ==> r == Ok(value))
      && (out.Err? && !out.error.IsValueError() ==> r == out)
  {
    var out := match ChainGet(maps, key)
      case Some(f) => f(value)
      case None => DecodeBytes(value);
    if out.Err? && out.error.IsValueError() then Ok(value) else out
  }

  /** Without a converter, text that is valid UTF-8 comes back decoded... */
  lemma ConvertDecodes(maps: seq<map<string, Converter>>, key: string, b: Bytes, s: string)
    requires ChainGet(maps, key).None? && Utf8.Decode(b) == Some(s)
    ensures ConvertWith(maps, key, PyBytes(b)) == Ok(PyStr(s))
  {
  }

  /** ...and anything else comes back as the bytes it was. */
  lemma ConvertKeepsUndecodable(maps: seq<map<string, Converter>>, key: string, b: Bytes)
    requires ChainGet(maps, key).None? && Utf8.Decode(b).None?
    ensures ConvertWith(maps, key, PyBytes(b)) == Ok(PyBytes(b))
  {
  }

  /**
   * One value of an entry: a list is converted item by item into a list of
   * the same length, stopping at the first exception; anything else is
   * converted whole.
   */
  function ConvertValue(maps: seq<map<string, Converter>>, key: string, v: Py): (r: Result<Py, Exc>)
    ensures !v.PyList? ==> r == ConvertWith(maps, key, v)
    ensures v.PyList? && r.Ok? ==>
      r.value.PyList? && |r.value.items| == |v.items|
      && forall i :: 0 <= i < |v.items| ==> ConvertWith(maps, key, v.items[i]) == Ok(r.value.items[i])
    ensures v.PyList? && r.Err? ==> exists i :: 0 <= i < |v.items| && ConvertWith(maps, key, v.items[i]) == Err(r.error)
  {
    match v
    case PyList(items) =>
      var c := Collect(items, x => ConvertWith(maps, key, x));
      if c.Err? then
        var i := FirstError(items, x => ConvertWith(maps, key, x));
        assert ConvertWith(maps, key, items[i]) == Err(c.error);
        Err(c.error)
      else Ok(PyList(c.value))
    case _ => ConvertWith(maps, key, v)
  }

  /**
   * What _convert_entry makes of `entry`: the same keys, each value
   * converted by ConvertValue; or an exception some value's conversion
   * raised.
   */
  ghost predicate ConvertsTo(maps: seq<map<string, Converter>>, entry: map<string, Py>, r: Result<map<string, Py>, Exc>)
  {
    (r.Ok? <==> forall k :: k in entry ==> ConvertValue(maps, k, entry[k]).Ok?)
    && (r.Ok? ==> r.value.Keys == entry.Keys
                  && forall k :: k in entry ==> ConvertValue(maps, k, entry[k]) == Ok(r.value[k]))
    && (r.Err? ==> exists k :: k in entry && ConvertValue(maps, k, entry[k]) == Err(r.error))
  }

  /** The binding's dictionary as Python sees it: bare bytes, or a list of bytes. */
  function PyEntry(d: Reader.EntryDict): (e: map<string, Py>)
    ensures e.Keys == d.Keys
    ensures forall k :: k in d && d[k].Single? ==> e[k] == PyBytes(d[k].v)
    ensures forall k :: k in d && d[k].Multi? ==>
      e[k].PyList? && |e[k].items| == |d[k].vs| && forall i :: 0 <= i < |d[k].vs| ==> e[k].items[i] == PyBytes(d[k].vs[i])
  {
    map k | k in d :: match d[k]
      case Single(v) => PyBytes(v)
      case Multi(vs) => PyList(seq(|vs|, i requires 0 <= i < |vs| => PyBytes(vs[i])))
  }

  // ------------------------------------------------- reading entries

  /**
   * get_next's additions to a nonempty entry, made in this order: the
   * realtime timestamp, the monotonic timestamp with the boot id, and the
   * cursor; the first of them that fails ends the call.
   */
  function Stamp(j: Option<Journal>, entry: map<string, Py>): (r: Result<map<string, Py>, Exc>)
    ensures r.Ok? <==> Reader.Realtime(j).Ok? && Reader.Cursor(j).Ok?
    ensures r.Ok? ==> r.value.Keys == entry.Keys + {"__REALTIME_TIMESTAMP", "__MONOTONIC_TIMESTAMP", "__CURSOR"}
    ensures r.Ok? ==> r.value["__CURSOR"] == PyStr(Reader.Cursor(j).value)
    ensures r.Ok? ==> r.value["__REALTIME_TIMESTAMP"] == PyInt(j.value.Current().realtime)
    ensures r.Ok? ==>
      r.value["__MONOTONIC_TIMESTAMP"] == PyTuple([PyInt(j.value.Current().monotonic), PyBytes(j.value.Current().bootId)])
    ensures Reader.Realtime(j).Err? ==> r == Err(Reader.Realtime(j).error)
    ensures Reader.Realtime(j).Ok? && Reader.Cursor(j).Err? ==> r == Err(Reader.Cursor(j).error)
    ensures r.Ok? ==> forall k :: k in entry && k !in {"__REALTIME_TIMESTAMP", "__MONOTONIC_TIMESTAMP", "__CURSOR"} ==>
      r.value[k] == entry[k]
  {
    match Reader.Realtime(j)
    case Err(e) => Err(e)
    case Ok(rt) =>
      match Reader.Monotonic(j)
      case Err(e) => Err(e)
      case Ok((m, boot)) =>
        match Reader.Cursor(j)
        case Err(e) => Err(e)
        case Ok(c) =>
          Ok(entry["__REALTIME_TIMESTAMP" := PyInt(rt)]
                  ["__MONOTONIC_TIMESTAMP" := PyTuple([PyInt(m), PyBytes(boot)])]
                  ["__CURSOR" := PyStr(c)])
  }

  /**
   * What get_next(skip) returns from the handle `j0`: {} when `_next` does
   * not move or the entry has no fields, otherwise the converted entry with
   * its timestamps and cursor. Exceptions from any step propagate.
   */
  ghost predicate GetNextOutcome(maps: seq<map<string, Converter>>, j0: Option<Journal>, skip: Py,
                                 r: Result<map<string, Py>, Exc>)
  {
    var (moved, j1) := Reader.NextOf(j0, skip);
    if moved.Err? then r == Err(moved.error)
    else if !moved.value then r == Ok(map[])
    else match Reader.GetAllOf(Data(j1))
      case Err(e) => r == Err(e)
      case Ok(d) =>
        if d == map[] then r == Ok(map[])
        else match Stamp(j1, PyEntry(d))
          case Err(e) => r == Err(e)
          case Ok(entry) => ConvertsTo(maps, entry, r)
  }

  /** `-skip` in Python: an int negates without bounds; anything else has no unary minus. */
  function Negate(skip: Py): (r: Result<Py, Exc>)
    ensures r.Ok? <==> IsPyInt(skip)
    ensures r.Ok? ==> r.value == PyInt(-PyIntValue(skip))
    ensures r.Err? ==> r.error == TypeError("bad operand type for unary -: " + TypeName(skip))
  {
    if IsPyInt(skip) then Ok(PyInt(-PyIntValue(skip))) else Err(TypeError("bad operand type for unary -: " + TypeName(skip)))
  }

  /** `__next__`: an empty answer from get_next ends the iteration. */
  function EndOfIteration(g: Result<map<string, Py>, Exc>): (r: Result<map<string, Py>, Exc>)
    ensures r.Ok? ==> r.value != map[] && r == g
    ensures g == Ok(map[]) ==> r == Err(StopIteration)
    ensures g.Err? ==> r == g
  {
    if g == Ok(map[]) then Err(StopIteration) else g
  }

  /** A nonempty entry from get_next carries every field of the record plus the three extra keys. */
  lemma GetNextKeys(maps: seq<map<string, Converter>>, j0: Option<Journal>, skip: Py, m: map<string, Py>)
    requires GetNextOutcome(maps, j0, skip, Ok(m)) && m != map[]
    ensures var j1 := Reader.NextOf(j0, skip).1;
      Reader.GetAllOf(Data(j1)).Ok?
      && m.Keys == Reader.GetAllOf(Data(j1)).value.Keys + {"__REALTIME_TIMESTAMP", "__MONOTONIC_TIMESTAMP", "__CURSOR"}
  {
    var j1 := Reader.NextOf(j0, skip).1;
    var d := Reader.GetAllOf(Data(j1)).value;
    assert Stamp(j1, PyEntry(d)).Ok?;
  }

  /** Once the reader is closed, get_next and iteration raise OSError (EINVAL) for every nonzero int skip. */
  lemma ClosedReaderGetNext(maps: seq<map<string, Converter>>, skip: int, r: Result<map<string, Py>, Exc>)
    requires skip != 0 && LONG_MIN <= skip <= LONG_MAX
    requires GetNextOutcome(maps, None, PyInt(skip), r)
    ensures r == Err(OSError(EINVAL, None)) && EndOfIteration(r) == r
  {
    Reader.NextWhenClosed(skip);
  }

  // ------------------------------------------------- adding matches

  /**
   * Passing each line to the binding's add_match in order: the first
   * exception ends the run, and what the earlier calls added stays.
   */
  function AddMatchesOf(j: Option<Journal>, lines: seq<Py>): (res: (Result<(), Exc>, Option<Journal>))
    ensures res.1.Some? <==> j.Some?
    decreases |lines|
  {
    if lines == [] then (Ok(()), j)
    else
      var (r, j1) := Reader.AddMatchOf(j, lines[0]);
      if r.Err? then (r, j1) else AddMatchesOf(j1, lines[1..])
  }

  /** The batch from line `i` on is line `i`, then, if it was accepted, the batch from `i + 1`. */
  lemma AddMatchesStep(j: Option<Journal>, lines: seq<Py>, i: nat)
    requires i < |lines|
    ensures AddMatchesOf(j, lines[i..]) ==
      (var step := Reader.AddMatchOf(j, lines[i]);
       if step.0.Err? then step else AddMatchesOf(step.1, lines[i + 1..]))
  {
    assert lines[i..][0] == lines[i];
    assert lines[i..][1..] == lines[i + 1..];
  }

  /** Running two batches of lines is running them one after the other. */
  lemma {:induction false} AddMatchesAppend(j: Option<Journal>, xs: seq<Py>, ys: seq<Py>)
    ensures AddMatchesOf(j, xs + ys) ==
      (var (r, j1) := AddMatchesOf(j, xs); if r.Err? then (r, j1) else AddMatchesOf(j1, ys))
    decreases |xs|
  {
    if xs == [] {
      assert xs + ys == ys;
    } else {
      assert (xs + ys)[0] == xs[0];
      assert (xs + ys)[1..] == xs[1..] + ys;
      var (r, j1) := Reader.AddMatchOf(j, xs[0]);
      if r.Ok? {
        AddMatchesAppend(j1, xs[1..], ys);
      }
    }
  }

  /** The bytes of a str or bytes match line. */
  function LineBytes(line: Py): Bytes
  {
    if line.PyBytes? then line.b else if line.PyStr? then Utf8.Encode(line.s) else []
  }

  /** The bytes of each line, in order. */
  function AllLineBytes(lines: seq<Py>): (bs: seq<Bytes>)
    ensures |bs| == |lines| && forall i :: 0 <= i < |lines| ==> bs[i] == LineBytes(lines[i])
  {
    if lines == [] then [] else [LineBytes(lines[0])] + AllLineBytes(lines[1..])
  }

  /** Concatenation is associative (stated generically, where it is cheap to prove). */
  lemma AppendAssoc<T>(a: seq<T>, b: seq<T>, c: seq<T>)
    ensures (a + b) + c == a + (b + c)
  {
  }

  /** A line add_match accepts on an open reader: text or bytes, short enough, a valid match. */
  predicate ValidLine(line: Py)
  {
    (line.PyStr? || line.PyBytes?) && |LineBytes(line)| <= INT_MAX && MatchValid(LineBytes(line))
  }

  /** A valid line on an open reader is added, and the batch goes on from there. */
  lemma AddOneValid(jr: Journal, lines: seq<Py>)
    requires lines != [] && ValidLine(lines[0])
    ensures AddMatchesOf(Some(jr), lines) ==
      AddMatchesOf(Some(jr.(matches := jr.matches + [LineBytes(lines[0])])), lines[1..])
  {
    assert Reader.MatchBytes(lines[0]) == Some(LineBytes(lines[0]));
    assert Reader.AddMatchOf(Some(jr), lines[0]) ==
      (Ok(()), Some(jr.(matches := jr.matches + [LineBytes(lines[0])])));
  }

  /** On an open reader, lines that are all valid matches are all added, in order. */
  lemma {:induction false} AddMatchesAllValid(jr: Journal, lines: seq<Py>)
    requires forall i :: 0 <= i < |lines| ==> ValidLine(lines[i])
    ensures AddMatchesOf(Some(jr), lines) == (Ok(()), Some(jr.(matches := jr.matches + AllLineBytes(lines))))
    decreases |lines|
  {
    if lines == [] {
      assert jr.matches + [] == jr.matches;
      assert jr.(matches := jr.matches) == jr;
    } else {
      var b := LineBytes(lines[0]);
      var j1 := jr.(matches := jr.matches + [b]);
      AddOneValid(jr, lines);
      AddMatchesAllValid(j1, lines[1..]);
      var rest := AllLineBytes(lines[1..]);
      assert AllLineBytes(lines) == [b] + rest;
      AppendAssoc(jr.matches, [b], rest);
    }
  }

  /** The match `PRIORITY=i`, as log_level builds it through `_make_line`. */
  function PriorityLine(i: nat): (line: Py)
    requires i <= 9
    ensures line.PyStr?
  {
    MakeLine("PRIORITY", PyStr([DigitChar(i)]), _ => "")
  }

  /** The lines log_level(level) adds, `PRIORITY=0` first. */
  function PriorityLines(level: nat): (ls: seq<Py>)
    requires level <= 7
    ensures |ls| == level + 1
    ensures forall i :: 0 <= i <= level ==> ls[i] == PriorityLine(i)
  {
    if level == 0 then [PriorityLine(0)] else PriorityLines(level - 1) + [PriorityLine(level)]
  }

  /**
   * What log_level(level) does to the handle `j`. A bool compares as 0 or
   * 1; any other object the model knows is not ordered against an int, so
   * `0 <= level` raises TypeError.
   */
  function LogLevelOf(j: Option<Journal>, level: Py): (res: (Result<(), Exc>, Option<Journal>))
    ensures !IsPyInt(level) ==>
      res == (Err(TypeError("'<=' not supported between instances of 'int' and " + TypeName(level))), j)
    ensures IsPyInt(level) && !(0 <= PyIntValue(level) <= 7) ==>
      res == (Err(ValueError("Log level must be 0 <= level <= 7")), j)
    ensures IsPyInt(level) && 0 <= PyIntValue(level) <= 7 && j.Some? ==>
      res == (Ok(()), Some(j.value.(matches := j.value.matches + PriorityMatches(PyIntValue(level)))))
    ensures res.1.Some? <==> j.Some?
  {
    if !IsPyInt(level) then (Err(TypeError("'<=' not supported between instances of 'int' and " + TypeName(level))), j)
    else if 0 <= PyIntValue(level) <= 7 then
      if j.Some? then
        PriorityLinesAdded(j.value, PyIntValue(level));
        AddMatchesOf(j, PriorityLines(PyIntValue(level)))
      else AddMatchesOf(j, PriorityLines(PyIntValue(level)))
    else (Err(ValueError("Log level must be 0 <= level <= 7")), j)
  }

  /** `PRIORITY=d` is a match the engine accepts. */
  lemma PriorityLineValid(i: nat)
    requires i <= 9
    ensures LineBytes(PriorityLine(i)) == Utf8.Encode("PRIORITY=" + [DigitChar(i)])
    ensures ValidLine(PriorityLine(i))
  {
    var s := "PRIORITY=" + [DigitChar(i)];
    assert "PRIORITY" + "=" + [DigitChar(i)] == s;
    assert PriorityLine(i) == PyStr(s);
    assert forall k :: 0 <= k < |s| ==> s[k] as int < 0x80;
    Utf8.EncodeAscii(s);
    var b := Utf8.Encode(s);
    assert |b| == 10;
    assert b[8] == EQ;
    assert forall k :: 0 <= k < 8 ==> FieldByte(b[k]);
  }

  /** `PRIORITY=0` through `PRIORITY=level`, encoded. */
  function PriorityMatches(level: nat): (ms: seq<Bytes>)
    requires level <= 7
    ensures |ms| == level + 1
    ensures forall i :: 0 <= i <= level ==> ms[i] == Utf8.Encode("PRIORITY=" + [DigitChar(i)])
  {
    if level == 0 then [Utf8.Encode("PRIORITY=" + [DigitChar(0)])]
    else PriorityMatches(level - 1) + [Utf8.Encode("PRIORITY=" + [DigitChar(level)])]
  }

  /**
   * The priority lines of a level, added to an open reader, all succeed:
   * exactly level+1 matches, `PRIORITY=0` through `PRIORITY=level` in order.
   */
  lemma PriorityLinesAdded(jr: Journal, level: nat)
    requires level <= 7
    ensures AddMatchesOf(Some(jr), PriorityLines(level)) == (Ok(()), Some(jr.(matches := jr.matches + PriorityMatches(level))))
  {
    var ls := PriorityLines(level);
    forall i | 0 <= i < |ls|
      ensures ValidLine(ls[i])
      ensures LineBytes(ls[i]) == PriorityMatches(level)[i]
    {
      PriorityLineValid(i);
    }
    AddMatchesAllValid(jr, ls);
    assert AllLineBytes(ls) == PriorityMatches(level);
  }

  /** A bool level is the level 0 or 1; any other non-int level is a TypeError that adds nothing. */
  lemma LogLevelOtherTypes(j: Option<Journal>, level: Py)
    ensures level.PyBool? ==> LogLevelOf(j, level) == LogLevelOf(j, PyInt(if level.flag then 1 else 0))
    ensures !IsPyInt(level) ==>
      LogLevelOf(j, level).0.Err? && LogLevelOf(j, level).0.error.TypeError? && LogLevelOf(j, level).1 == j
  {
  }

  // ------------------------------------------------- the Reader subclass

  /** The flags `__init__` passes on: LOCAL_ONLY when nothing says where to read, 0 when a path or files do. */
  function FlagsFor(flags: Option<Py>, path: Py, files: Py): (f: Py)
    ensures flags.Some? ==> f == flags.value
    ensures flags.None? && path.PyNone? && files.PyNone? ==> f == PyInt(Reader.SD_JOURNAL_LOCAL_ONLY)
    ensures flags.None? && !(path.PyNone? && files.PyNone?) ==> f == PyInt(0)
  {
    match flags
    case Some(v) => v
    case None => if path.PyNone? && files.PyNone? then PyInt(Reader.SD_JOURNAL_LOCAL_ONLY) else PyInt(0)
  }

  /** With neither flags, path nor files the Python default is the binding's own default. */
  lemma FlagsForDefault(path: Py, files: Py)
    requires path.PyNone? && files.PyNone?
    ensures Reader.FlagsArg(Some(FlagsFor(None, path, files))) == Reader.FlagsArg(None)
  {
  }

  /** systemd.journal.Reader: the binding's reader plus the converter chain. */
  class JournalReader {
    const base: Reader.Reader
    var converters: seq<map<string, Converter>>

    /** The object before `__init__`: a closed binding reader and no converters. */
    constructor ()
      ensures fresh(base) && base.j == None && converters == []
    {
      base := new Reader.Reader();
      converters := [];
    }

    /**
     * Reader.__init__: the binding is opened with the defaulted flags and no
     * namespace; only when that succeeds is the converter chain set up.
     */
    method Init(flags: Option<Py>, path: Py, files: Py, user: Option<map<string, Converter>>,
                defaults: map<string, Converter>, caps: Reader.Caps, open: Reader.OpenCall -> Reader.OpenReply)
      returns (s: Status)
      modifies this, base
      ensures (s, base.j) == Reader.InitOf(old(base.j), Some(FlagsFor(flags, path, files)), path, files, PyNone, caps, open)
      ensures s.Passed? ==> converters == ChainFor(user, defaults)
      ensures s.Raised? ==> converters == old(converters)
    {
      s := base.Init(Some(FlagsFor(flags, path, files)), path, files, PyNone, caps, open);
      if s.Passed? {
        converters := ChainFor(user, defaults);
      }
    }

    /** _convert_field with this reader's converters. */
    function ConvertField(key: string, value: Py): Result<Py, Exc>
      reads this
    {
      ConvertWith(converters, key, value)
    }

    /** _convert_entry: fills a new dictionary one key at a time. */
    method ConvertEntry(entry: map<string, Py>) returns (r: Result<map<string, Py>, Exc>)
      ensures ConvertsTo(converters, entry, r)
    {
      var result: map<string, Py> := map[];
      var rest := entry.Keys;
      while rest != {}
        invariant rest <= entry.Keys
        invariant result.Keys == entry.Keys - rest
        invariant forall k :: k in result ==> ConvertValue(converters, k, entry[k]) == Ok(result[k])
        decreases rest
      {
        var k :| k in rest;
        var c := ConvertValue(converters, k, entry[k]);
        if c.Err? {
          return Err(c.error);
        }
        result := result[k := c.value];
        rest := rest - {k};
      }
      return Ok(result);
    }

    /** get_next. */
    method GetNext(skip: Py) returns (r: Result<map<string, Py>, Exc>)
      modifies base
      ensures base.j == Reader.NextOf(old(base.j), skip).1
      ensures GetNextOutcome(converters, old(base.j), skip, r)
    {
      var moved := base.Next(skip);
      if moved.Err? {
        return Err(moved.error);
      }
      if !moved.value {
        return Ok(map[]);
      }
      var d := base.GetAll();
      if d.Err? {
        return Err(d.error);
      }
      if d.value == map[] {
        return Ok(map[]);
      }
      var entry := PyEntry(d.value);
      var rt := Reader.Realtime(base.j);
      match rt {
        case Err(e) => return Err(e);
        case Ok(t) => entry := entry["__REALTIME_TIMESTAMP" := PyInt(t)];
      }
      var mono := Reader.Monotonic(base.j);
      match mono {
        case Err(e) => return Err(e);
        case Ok((m, boot)) => entry := entry["__MONOTONIC_TIMESTAMP" := PyTuple([PyInt(m), PyBytes(boot)])];
      }
      var cur := Reader.Cursor(base.j);
      if cur.Err? {
        return Err(cur.error);
      }
      entry := entry["__CURSOR" := PyStr(cur.value)];
      assert Stamp(base.j, PyEntry(d.value)) == Ok(entry);
      r := ConvertEntry(entry);
    }

    /** get_previous(skip) is get_next(-skip). */
    method GetPrevious(skip: Py) returns (r: Result<map<string, Py>, Exc>)
      modifies base
      ensures Negate(skip).Err? ==> r == Err(Negate(skip).error) && base.j == old(base.j)
      ensures Negate(skip).Ok? ==>
        base.j == Reader.NextOf(old(base.j), Negate(skip).value).1
        && GetNextOutcome(converters, old(base.j), Negate(skip).value, r)
    {
      var n := Negate(skip);
      if n.Err? {
        return Err(n.error);
      }
      r := GetNext(n.value);
    }

    /** `__next__`: get_next(1), with an empty answer turned into StopIteration. */
    method IterNext() returns (r: Result<map<string, Py>, Exc>)
      modifies base
      ensures base.j == Reader.NextOf(old(base.j), PyInt(1)).1
      ensures exists g :: GetNextOutcome(converters, old(base.j), PyInt(1), g) && r == EndOfIteration(g)
    {
      var g := GetNext(PyInt(1));
      r := EndOfIteration(g);
    }

    /**
     * add_match(*args, **kwargs): the positional matches, then one
     * `_make_line` line per keyword in order, each passed to the binding.
     */
    method AddMatch(args: seq<Py>, kwargs: seq<(string, Py)>, show: Py -> string) returns (r: Result<(), Exc>)
      modifies base
      ensures (r, base.j) == AddMatchesOf(old(base.j), MatchLines(args, kwargs, show))
    {
      var lines := MatchLines(args, kwargs, show);
      var i := 0;
      while i < |lines|
        invariant 0 <= i <= |lines|
        invariant AddMatchesOf(old(base.j), lines) == AddMatchesOf(base.j, lines[i..])
      {
        AddMatchesStep(base.j, lines, i);
        var res := base.AddMatch(lines[i]);
        if res.Err? {
          return res;
        }
        i := i + 1;
      }
      assert lines[i..] == [];
      return Ok(());
    }

    /** log_level: one PRIORITY match per level from 0 to `level`. */
    method LogLevel(levelArg: Py) returns (r: Result<(), Exc>)
      modifies base
      ensures (r, base.j) == LogLevelOf(old(base.j), levelArg)
    {
      if !IsPyInt(levelArg) {
        return Err(TypeError("'<=' not supported between instances of 'int' and " + TypeName(levelArg)));
      }
      var level := PyIntValue(levelArg);
      if !(0 <= level <= 7) {
        return Err(ValueError("Log level must be 0 <= level <= 7"));
      }
      r := AddPriorities(level);
    }

    /** The `for i in range(level+1)` loop of log_level: one add_match per priority. */
    method AddPriorities(level: int) returns (r: Result<(), Exc>)
      requires 0 <= level <= 7
      modifies base
      ensures (r, base.j) == AddMatchesOf(old(base.j), PriorityLines(level))
    {
      var i := 0;
      r := Ok(());
      while i <= level
        invariant 0 <= i <= level + 1
        invariant r == Ok(())
        invariant AddMatchesOf(old(base.j), PriorityLines(level)) ==
          AddMatchesOf(base.j, PriorityLines(level)[i..])
      {
        ghost var rest := PriorityLines(level)[i..];
        ghost var before := base.j;
        assert rest[1..] == PriorityLines(level)[i + 1..];
        r := AddMatch([], [("PRIORITY", PyStr([DigitChar(i)]))], _ => "");
        assert MatchLines([], [("PRIORITY", PyStr([DigitChar(i)]))], _ => "") == [rest[0]];
        assert (r, base.j) == Reader.AddMatchOf(before, rest[0]);
        if r.Err? {
          return r;
        }
        i := i + 1;
      }
      assert PriorityLines(level)[i..] == [];
    }
  }

  /** The lines add_match passes on: `args` as given, then a line per keyword argument. */
  function MatchLines(args: seq<Py>, kwargs: seq<(string, Py)>, show: Py -> string): (ls: seq<Py>)
    ensures |ls| == |args| + |kwargs|
    ensures ls[..|args|] == args
    ensures forall i :: |args| <= i < |ls| ==> ls[i] == MakeLine(kwargs[i - |args|].0, kwargs[i - |args|].1, show)
  {
    var tail := seq(|kwargs|, i requires 0 <= i < |kwargs| => MakeLine(kwargs[i].0, kwargs[i].1, show));
    assert (args + tail)[..|args|] == args;
    args + tail
  }

  // ------------------------------------------------- send

  /**
   * The argument list `send` hands to `sendv`: MESSAGE first, then
   * MESSAGE_ID, then CODE_FILE, CODE_LINE and CODE_FUNC (taken together from
   * the caller's frame when none of the three is given), then the keyword
   * fields. `MESSAGE` must be a str.
   */
  method SendArgs(message: Py, messageId: Option<string>, codeFile: Option<string>, codeLine: Option<int>,
                  codeFunc: Option<string>, kwargs: seq<(string, Py)>, caller: (string, int, string),
                  show: Py -> string)
    returns (r: Result<seq<Py>, Exc>)
    ensures r == SendArgsOf(message, messageId, codeFile, codeLine, codeFunc, kwargs, caller, show)
  {
    if !message.PyStr? {
      return Err(TypeError("can only concatenate str (not \"" + BareTypeName(message) + "\") to str"));
    }
    var args := [PyStr("MESSAGE=" + message.s)];
    if messageId.Some? {
      args := args + [PyStr("MESSAGE_ID=" + messageId.value)];
    }
    assert args == SendHead(message.s, messageId);
    args := AppendCodeLines(args, codeFile, codeLine, codeFunc, caller);
    args := args + MatchLines([], kwargs, show);
    return Ok(args);
  }

  /** The CODE_FILE, CODE_LINE and CODE_FUNC appends of `send`, the caller's frame filling in when none is given. */
  method AppendCodeLines(args: seq<Py>, codeFile: Option<string>, codeLine: Option<int>, codeFunc: Option<string>,
                         caller: (string, int, string))
    returns (out: seq<Py>)
    ensures out == args + CodeLines(codeFile, codeLine, codeFunc, caller)
  {
    out := args;
    var file, line, func := codeFile, codeLine, codeFunc;
    if file.None? && line.None? && func.None? {
      file, line, func := Some(caller.0), Some(caller.1), Some(caller.2);
    }
    if file.Some? {
      out := out + [PyStr("CODE_FILE=" + file.value)];
    }
    if line.Some? {
      out := out + [PyStr("CODE_LINE=" + IntText(line.value))];
    }
    if func.Some? {
      out := out + [PyStr("CODE_FUNC=" + func.value)];
    }
  }

  /** The code fields `send` adds, in order. */
  function CodeLines(codeFile: Option<string>, codeLine: Option<int>, codeFunc: Option<string>,
                     caller: (string, int, string)): (ls: seq<Py>)
    ensures codeFile.None? && codeLine.None? && codeFunc.None? ==>
      ls == [PyStr("CODE_FILE=" + caller.0), PyStr("CODE_LINE=" + IntText(caller.1)), PyStr("CODE_FUNC=" + caller.2)]
    ensures !(codeFile.None? && codeLine.None? && codeFunc.None?) ==>
      |ls| == (if codeFile.Some? then 1 else 0) + (if codeLine.Some? then 1 else 0) + (if codeFunc.Some? then 1 else 0)
    ensures codeFile.Some? ==> ls[0] == PyStr("CODE_FILE=" + codeFile.value)
    ensures codeLine.Some? ==> ls[if codeFile.Some? then 1 else 0] == PyStr("CODE_LINE=" + IntText(codeLine.value))
    ensures codeFunc.Some? ==> ls[|ls| - 1] == PyStr("CODE_FUNC=" + codeFunc.value)
  {
    var (f, l, fn) := if codeFile.None? && codeLine.None? && codeFunc.None?
      then (Some(caller.0), Some(caller.1), Some(caller.2)) else (codeFile, codeLine, codeFunc);
    (if f.Some? then [PyStr("CODE_FILE=" + f.value)] else [])
    + (if l.Some? then [PyStr("CODE_LINE=" + IntText(l.value))] else [])
    + (if fn.Some? then [PyStr("CODE_FUNC=" + fn.value)] else [])
  }

  /** The argument list of `send`, or the TypeError for a MESSAGE that is not a str. */
  function SendArgsOf(message: Py, messageId: Option<string>, codeFile: Option<string>, codeLine: Option<int>,
                      codeFunc: Option<string>, kwargs: seq<(string, Py)>, caller: (string, int, string),
                      show: Py -> string): (r: Result<seq<Py>, Exc>)
    ensures r.Ok? <==> message.PyStr?
    ensures r.Err? ==> r.error == TypeError("can only concatenate str (not \"" + BareTypeName(message) + "\") to str")
    ensures r.Ok? ==> |r.value| >= 1 && r.value[0] == PyStr("MESSAGE=" + message.s)
    ensures r.Ok? && messageId.Some? ==> |r.value| >= 2 && r.value[1] == PyStr("MESSAGE_ID=" + messageId.value)
  {
    if !message.PyStr? then Err(TypeError("can only concatenate str (not \"" + BareTypeName(message) + "\") to str"))
    else Ok(SendHead(message.s, messageId) + CodeLines(codeFile, codeLine, codeFunc, caller) + MatchLines([], kwargs, show))
  }

  /** The MESSAGE line and the MESSAGE_ID line when there is an id. */
  function SendHead(message: string, messageId: Option<string>): (ls: seq<Py>)
    ensures |ls| == 1 + (if messageId.Some? then 1 else 0)
    ensures ls[0] == PyStr("MESSAGE=" + message)
    ensures messageId.Some? ==> ls[1] == PyStr("MESSAGE_ID=" + messageId.value)
  {
    [PyStr("MESSAGE=" + message)] + (if messageId.Some? then [PyStr("MESSAGE_ID=" + messageId.value)] else [])
  }

  /** `send` passes one line per field it was given, the keyword fields last and in order. */
  lemma SendArgsKeywordsLast(message: string, messageId: Option<string>, codeFile: Option<string>, codeLine: Option<int>,
                             codeFunc: Option<string>, kwargs: seq<(string, Py)>, caller: (string, int, string),
                             show: Py -> string)
    ensures var r := SendArgsOf(PyStr(message), messageId, codeFile, codeLine, codeFunc, kwargs, caller, show).value;
      |r| == 1 + (if messageId.Some? then 1 else 0) + |CodeLines(codeFile, codeLine, codeFunc, caller)| + |kwargs|
      && r[|r| - |kwargs|..] == MatchLines([], kwargs, show)
  {
    var head := SendHead(message, messageId) + CodeLines(codeFile, codeLine, codeFunc, caller);
    var tail := MatchLines([], kwargs, show);
    var r := head + tail;
    assert SendArgsOf(PyStr(message), messageId, codeFile, codeLine, codeFunc, kwargs, caller, show) == Ok(r);
    assert |r| == |head| + |kwargs|;
    assert r[|head|..] == tail;
  }

  // ------------------------------------------------- JournalHandler

  /** A configured handler: its level, the custom sender if one was given, and the extra fields. */
  datatype Handler = Handler(level: int, sender: Option<Py>, extra: map<string, Py>)

  /** The index of the first keyword whose name is not a valid field name, or |kwargs|. */
  function FirstInvalid(kwargs: seq<(string, Py)>): (i: nat)
    ensures i <= |kwargs|
    ensures forall k :: 0 <= k < i ==> ValidFieldName(kwargs[k].0)
    ensures i < |kwargs| ==> !ValidFieldName(kwargs[i].0)
  {
    if kwargs == [] then 0
    else if !ValidFieldName(kwargs[0].0) then 0
    else 1 + FirstInvalid(kwargs[1..])
  }

  lemma SyslogIdentifierValid()
    ensures ValidFieldName("SYSLOG_IDENTIFIER")
  {
    var s := "SYSLOG_IDENTIFIER";
    assert forall i :: 0 <= i < |s| ==> IdentChar(s[i]);
  }

  lemma SenderFunctionValid()
    ensures ValidFieldName("SENDER_FUNCTION")
  {
    var s := "SENDER_FUNCTION";
    assert forall i :: 0 <= i < |s| ==> IdentChar(s[i]);
  }

  /** The names of the keyword arguments. */
  function KeywordNames(kwargs: seq<(string, Py)>): set<string>
  {
    set i | 0 <= i < |kwargs| :: kwargs[i].0
  }

  /** The `**kwargs` dictionary of distinct keyword names. */
  function KeywordMap(kwargs: seq<(string, Py)>): (m: map<string, Py>)
    requires forall a, b :: 0 <= a < b < |kwargs| ==> kwargs[a].0 != kwargs[b].0
    ensures forall name :: name in m <==> exists i :: 0 <= i < |kwargs| && kwargs[i].0 == name
    ensures forall i :: 0 <= i < |kwargs| ==> kwargs[i].0 in m && m[kwargs[i].0] == kwargs[i].1
    ensures m.Keys == KeywordNames(kwargs)
  {
    KeywordDictKeys(kwargs);
    KeywordDictValues(kwargs);
    KeywordDict(kwargs)
  }

  /** The dictionary built pair by pair, the first pair last. */
  function KeywordDict(kwargs: seq<(string, Py)>): map<string, Py>
  {
    if kwargs == [] then map[] else KeywordDict(kwargs[1..])[kwargs[0].0 := kwargs[0].1]
  }

  /** Its keys are the keyword names. */
  lemma {:induction false} KeywordDictKeys(kwargs: seq<(string, Py)>)
    ensures forall name :: name in KeywordDict(kwargs) <==> exists i :: 0 <= i < |kwargs| && kwargs[i].0 == name
    ensures KeywordDict(kwargs).Keys == KeywordNames(kwargs)
  {
    if kwargs != [] {
      var tail := kwargs[1..];
      KeywordDictKeys(tail);
      assert KeywordNames(kwargs) == {kwargs[0].0} + KeywordNames(tail) by {
        forall name | name in KeywordNames(kwargs)
          ensures name in {kwargs[0].0} + KeywordNames(tail)
        {
          var i :| 0 <= i < |kwargs| && kwargs[i].0 == name;
          if i > 0 {
            assert tail[i - 1] == kwargs[i];
          }
        }
        forall name | name in KeywordNames(tail)
          ensures name in KeywordNames(kwargs)
        {
          var i :| 0 <= i < |tail| && tail[i].0 == name;
          assert kwargs[i + 1] == tail[i];
        }
      }
      forall name | name in KeywordDict(kwargs)
        ensures exists i :: 0 <= i < |kwargs| && kwargs[i].0 == name
      {
        if name != kwargs[0].0 {
          var i :| 0 <= i < |tail| && tail[i].0 == name;
          assert kwargs[i + 1] == tail[i];
        }
      }
      forall name | exists i :: 0 <= i < |kwargs| && kwargs[i].0 == name
        ensures name in KeywordDict(kwargs)
      {
        var i :| 0 <= i < |kwargs| && kwargs[i].0 == name;
        if i > 0 {
          assert tail[i - 1] == kwargs[i];
        }
      }
    }
  }

  /** With distinct names, each name maps to its own value. */
  lemma {:induction false} KeywordDictValues(kwargs: seq<(string, Py)>)
    requires forall a, b :: 0 <= a < b < |kwargs| ==> kwargs[a].0 != kwargs[b].0
    ensures forall i :: 0 <= i < |kwargs| ==> kwargs[i].0 in KeywordDict(kwargs) && KeywordDict(kwargs)[kwargs[i].0] == kwargs[i].1
  {
    if kwargs != [] {
      var tail := kwargs[1..];
      forall a, b | 0 <= a < b < |tail|
        ensures tail[a].0 != tail[b].0
      {
        assert tail[a] == kwargs[a + 1] && tail[b] == kwargs[b + 1];
      }
      KeywordDictValues(tail);
      forall i | 1 <= i < |kwargs|
        ensures kwargs[i].0 in KeywordDict(kwargs) && KeywordDict(kwargs)[kwargs[i].0] == kwargs[i].1
      {
        assert tail[i - 1] == kwargs[i];
        assert kwargs[i].0 != kwargs[0].0;
      }
    }
  }

  /** logging's `_nameToLevel`: the level names `_checkLevel` accepts. */
  const LEVEL_NAMES: map<string, int> := map[
    "CRITICAL" := CRITICAL, "FATAL" := CRITICAL, "ERROR" := ERROR, "WARN" := WARNING,
    "WARNING" := WARNING, "INFO" := INFO, "DEBUG" := DEBUG, "NOTSET" := NOTSET]

  /**
   * logging's `_checkLevel`, which `logging.Handler.__init__` runs first: an
   * int (a bool included) is the level, a str must be a level name, and
   * anything else is a TypeError.
   */
  function CheckLevel(level: Py): (r: Result<int, Exc>)
    ensures IsPyInt(level) ==> r == Ok(PyIntValue(level))
    ensures level.PyStr? ==> (r.Ok? <==> level.s in LEVEL_NAMES)
    ensures level.PyStr? && r.Ok? ==> r.value == LEVEL_NAMES[level.s]
    ensures level.PyStr? && r.Err? ==> r.error == ValueError("Unknown level: '" + level.s + "'")
    ensures !IsPyInt(level) && !level.PyStr? ==>
      r.Err? && r.error.TypeError? && |r.error.message| >= 40
      && r.error.message[..40] == "Level not an integer or a valid string: "
  {
    if IsPyInt(level) then Ok(PyIntValue(level))
    else if level.PyStr? then
      if level.s in LEVEL_NAMES then Ok(LEVEL_NAMES[level.s])
      else Err(ValueError("Unknown level: '" + level.s + "'"))
    else Err(TypeError("Level not an integer or a valid string: " + BareTypeName(level)))
  }

  /** A level name gives its number, and an unknown name is refused before the keywords are looked at. */
  lemma HandlerInitLevelFirst(argv0: string)
    ensures HandlerInit(PyStr("INFO"), [], argv0).Ok? && HandlerInit(PyStr("INFO"), [], argv0).value.level == INFO
    ensures HandlerInit(PyStr("LOUD"), [("bad", PyInt(1))], argv0) == Err(ValueError("Unknown level: 'LOUD'"))
  {
    assert "INFO" in LEVEL_NAMES;
    assert "LOUD" !in LEVEL_NAMES;
    assert "Unknown level: '" + "LOUD" + "'" == "Unknown level: 'LOUD'";
  }

  /**
   * JournalHandler.__init__: the level check of `logging.Handler` first;
   * then a ValueError naming the first invalid keyword;
   * otherwise SYSLOG_IDENTIFIER defaults to `argv0` and SENDER_FUNCTION,
   * when given, is taken out as the sender. The keyword names are distinct,
   * as Python's keyword arguments always are.
   */
  function HandlerInit(level: Py, kwargs: seq<(string, Py)>, argv0: string): (r: Result<Handler, Exc>)
    requires forall a, b :: 0 <= a < b < |kwargs| ==> kwargs[a].0 != kwargs[b].0
    ensures CheckLevel(level).Err? ==> r == Err(CheckLevel(level).error)
    ensures CheckLevel(level).Ok? ==> (r.Err? <==> exists i :: 0 <= i < |kwargs| && !ValidFieldName(kwargs[i].0))
    ensures CheckLevel(level).Ok? && r.Err? ==> r.error == ValueError("Invalid field name: " + kwargs[FirstInvalid(kwargs)].0)
    ensures r.Ok? ==> CheckLevel(level) == Ok(r.value.level)
    ensures r.Ok? ==> "SYSLOG_IDENTIFIER" in r.value.extra && "SENDER_FUNCTION" !in r.value.extra
    ensures r.Ok? ==> forall name :: name in r.value.extra ==> ValidFieldName(name)
    ensures r.Ok? ==> forall i :: 0 <= i < |kwargs| && kwargs[i].0 != "SENDER_FUNCTION" ==>
      kwargs[i].0 in r.value.extra && r.value.extra[kwargs[i].0] == kwargs[i].1
    ensures r.Ok? ==> (r.value.sender.Some? <==> exists i :: 0 <= i < |kwargs| && kwargs[i].0 == "SENDER_FUNCTION")
    ensures r.Ok? ==> forall i :: 0 <= i < |kwargs| && kwargs[i].0 == "SENDER_FUNCTION" ==>
      r.value.sender == Some(kwargs[i].1)
    ensures r.Ok? && (forall i :: 0 <= i < |kwargs| ==> kwargs[i].0 != "SYSLOG_IDENTIFIER") ==>
      r.value.extra["SYSLOG_IDENTIFIER"] == PyStr(argv0)
    ensures r.Ok? ==>
      r.value.extra.Keys == KeywordNames(kwargs) + {"SYSLOG_IDENTIFIER"} - {"SENDER_FUNCTION"}
  {
    var lv := CheckLevel(level);
    var bad := FirstInvalid(kwargs);
    if lv.Err? then Err(lv.error)
    else if bad < |kwargs| then Err(ValueError("Invalid field name: " + kwargs[bad].0))
    else
      var given := KeywordMap(kwargs);
      assert forall name :: name in given ==> ValidFieldName(name);
      assert ValidFieldName("SYSLOG_IDENTIFIER") by { SyslogIdentifierValid(); }
      Ok(HandlerOf(lv.value, given, argv0))
  }

  /** The handler made from the keyword dictionary: SYSLOG_IDENTIFIER defaulted, SENDER_FUNCTION taken out. */
  function HandlerOf(level: int, given: map<string, Py>, argv0: string): (h: Handler)
    ensures h.level == level
    ensures h.extra.Keys == given.Keys + {"SYSLOG_IDENTIFIER"} - {"SENDER_FUNCTION"}
    ensures forall k :: k in given && k != "SENDER_FUNCTION" ==> h.extra[k] == given[k]
    ensures "SYSLOG_IDENTIFIER" !in given ==> h.extra["SYSLOG_IDENTIFIER"] == PyStr(argv0)
    ensures h.sender == (if "SENDER_FUNCTION" in given then Some(given["SENDER_FUNCTION"]) else None)
  {
    var withId := if "SYSLOG_IDENTIFIER" in given then given else given["SYSLOG_IDENTIFIER" := PyStr(argv0)];
    var sender := if "SENDER_FUNCTION" in withId then Some(withId["SENDER_FUNCTION"]) else None;
    Handler(level, sender, withId - {"SENDER_FUNCTION"})
  }

  /** With no keywords the handler sends only SYSLOG_IDENTIFIER, set to `argv0`, and has no sender. */
  lemma HandlerInitDefault(level: int, argv0: string)
    ensures HandlerInit(PyInt(level), [], argv0) == Ok(Handler(level, None, map["SYSLOG_IDENTIFIER" := PyStr(argv0)]))
  {
    var r := HandlerInit(PyInt(level), [], argv0);
    assert r.Ok?;
    assert r.value.extra.Keys == {"SYSLOG_IDENTIFIER"};
    assert r.value.extra["SYSLOG_IDENTIFIER"] == PyStr(argv0);
    assert r.value.extra == map["SYSLOG_IDENTIFIER" := PyStr(argv0)];
  }

  /** SENDER_FUNCTION given as a keyword becomes the sender and is not sent as a field. */
  lemma HandlerInitSender(level: int, f: Py, argv0: string)
    ensures HandlerInit(PyInt(level), [("SENDER_FUNCTION", f)], argv0)
      == Ok(Handler(level, Some(f), map["SYSLOG_IDENTIFIER" := PyStr(argv0)]))
  {
    var kw := [("SENDER_FUNCTION", f)];
    assert ValidFieldName("SENDER_FUNCTION") by { SenderFunctionValid(); }
    var r := HandlerInit(PyInt(level), kw, argv0);
    assert r.Ok?;
    assert KeywordNames(kw) == {"SENDER_FUNCTION"};
    assert r.value.extra.Keys == {"SYSLOG_IDENTIFIER"};
    assert r.value.extra["SYSLOG_IDENTIFIER"] == PyStr(argv0);
    assert r.value.extra == map["SYSLOG_IDENTIFIER" := PyStr(argv0)];
    assert r.value.sender == Some(kw[0].1);
  }
}
