/**
 * Shared vocabulary of the model: bytes, optional values and results, the
 * Linux errno values the bindings use, the Python exceptions they raise and
 * the Python objects they accept or build.
 */
module Base {

  newtype byte = x: int | 0 <= x < 0x100
  type Bytes = seq<byte>

  datatype Option<+T> = None | Some(value: T)
  {
    function GetOr(default: T): T
    {
      if Some? then value else default
    }
  }

  datatype Result<+T, +E> = Ok(value: T) | Err(error: E)

  /** A positive errno value, as a failing C call leaves in `errno`. */
  type PositiveErrno = e: int | e > 0 witness 22

  /** The index of the first element `f` fails on, or `|xs|` when it fails on none. */
  function FirstError<A, B, E>(xs: seq<A>, f: A -> Result<B, E>): (i: nat)
    ensures i <= |xs|
    ensures forall k :: 0 <= k < i ==> f(xs[k]).Ok?
    ensures i < |xs| ==> f(xs[i]).Err?
  {
    if xs == [] then 0 else if f(xs[0]).Err? then 0 else 1 + FirstError(xs[1..], f)
  }

  /** Where the conversion stops when the first failure is at `i`. */
  lemma CollectStops<A, B, E>(xs: seq<A>, f: A -> Result<B, E>, i: nat)
    requires i < |xs| && f(xs[i]).Err?
    requires forall k :: 0 <= k < i ==> f(xs[k]).Ok?
    ensures FirstError(xs, f) == i && Collect(xs, f) == Err(f(xs[i]).error)
  {
  }

  /** The conversion succeeds with `ys` when every element converts to its counterpart. */
  lemma CollectAll<A, B, E>(xs: seq<A>, f: A -> Result<B, E>, ys: seq<B>)
    requires |ys| == |xs| && forall k :: 0 <= k < |xs| ==> f(xs[k]) == Ok(ys[k])
    ensures Collect(xs, f) == Ok(ys)
  {
    var c := Collect(xs, f);
    assert FirstError(xs, f) == |xs|;
    assert c.Ok?;
    assert forall k :: 0 <= k < |xs| ==> c.value[k] == ys[k];
    assert c.value == ys;
  }

  /**
   * Converting every element in order and stopping at the first failure,
   * as the C loops over a Python sequence do.
   */
  function Collect<A, B, E>(xs: seq<A>, f: A -> Result<B, E>): (r: Result<seq<B>, E>)
    ensures r.Ok? <==> FirstError(xs, f) == |xs|
    ensures r.Ok? ==> |r.value| == |xs| && forall i :: 0 <= i < |xs| ==> f(xs[i]) == Ok(r.value[i])
    ensures r.Err? ==> r.error == f(xs[FirstError(xs, f)]).error
  {
    if xs == [] then Ok([])
    else
      var init := xs[..|xs| - 1];
      assert forall k :: 0 <= k < |init| ==> init[k] == xs[k];
      match Collect(init, f)
      case Err(e) => Err(e)
      case Ok(bs) =>
        match f(xs[|xs| - 1])
        case Err(e) => Err(e)
        case Ok(b) => Ok(bs + [b])
  }

  // Linux errno values.
  const ENOENT: int := 2
  const ENOMEM: int := 12
  const EINVAL: int := 22
  const ERANGE: int := 34
  const ENOSYS: int := 38
  const EADDRNOTAVAIL: int := 99
  const ENOBUFS: int := 105

  // Integer widths of the LP64 C ABI the extension modules are built for.
  const INT_MIN: int := -0x8000_0000
  const INT_MAX: int := 0x7FFF_FFFF
  const UINT_MAX: int := 0xFFFF_FFFF
  const LONG_MIN: int := -0x8000_0000_0000_0000
  const LONG_MAX: int := 0x7FFF_FFFF_FFFF_FFFF
  const ULONG_MAX: int := 0xFFFF_FFFF_FFFF_FFFF
  const LLONG_MIN: int := -0x8000_0000_0000_0000
  const LLONG_MAX: int := 0x7FFF_FFFF_FFFF_FFFF
  const UINT64_MAX: int := 0xFFFF_FFFF_FFFF_FFFF
  const UINT16_MAX: int := 0xFFFF
  const TWO_64: int := 0x1_0000_0000_0000_0000

  /** The byte value of an ASCII character. */
  function Ascii(c: char): byte
    requires c as int < 0x80
  {
    c as int as byte
  }

  /** The bytes of an ASCII string. */
  function AsciiBytes(s: string): (b: Bytes)
    requires forall i :: 0 <= i < |s| ==> s[i] as int < 0x80
    ensures |b| == |s|
    ensures forall i :: 0 <= i < |s| ==> b[i] as int == s[i] as int
  {
    if s == [] then [] else [Ascii(s[0])] + AsciiBytes(s[1..])
  }

  /** The Python exceptions the modelled code raises. */
  datatype Exc =
    | ValueError(message: string)
    | UnicodeDecodeError                        // a subclass of ValueError
    | TypeError(message: string)
    | OverflowError(message: string)
    | KeyError(key: Py)                         // the key as a str
    | IndexError(message: string)
    | AttributeError(message: string)
    | MemoryError
    | OSError(errno: int, filename: Option<Bytes>)   // raised from an errno
    | OSErrorMessage(message: string)               // raised with a message only
    | StopIteration
    | RuntimeError(message: string)
    | SystemError(cause: Exc)                   // a C function returned success with `cause` still pending
  {
    /** `except ValueError` catches the exception. */
    predicate IsValueError()
    {
      ValueError? || UnicodeDecodeError?
    }
  }

  /** The Python objects the modelled code accepts and builds. */
  datatype Py =
    | PyNone
    | PyBool(flag: bool)
    | PyInt(i: int)
    | PyStr(s: string)
    | PyBytes(b: Bytes)
    | PyList(items: seq<Py>)
    | PyTuple(elems: seq<Py>)
    | PyPathLike(fspath: Py)                    // an os.PathLike object, with what its __fspath__ returns
    | PyObject(name: string)                    // any other object, by its type name

  /** The quoted type name Python's error messages report. */
  function TypeName(o: Py): string
  {
    match o
    case PyNone => "'NoneType'"
    case PyBool(_) => "'bool'"
    case PyInt(_) => "'int'"
    case PyStr(_) => "'str'"
    case PyBytes(_) => "'bytes'"
    case PyList(_) => "'list'"
    case PyTuple(_) => "'tuple'"
    case PyPathLike(_) => "'PosixPath'"
    case PyObject(name) => "'" + name + "'"
  }

  /** The type name as `type(o).__name__` gives it: the name TypeName quotes. */
  function BareTypeName(o: Py): (r: string)
    ensures TypeName(o) == "'" + r + "'"
  {
    match o
    case PyNone => "NoneType"
    case PyBool(_) => "bool"
    case PyInt(_) => "int"
    case PyStr(_) => "str"
    case PyBytes(_) => "bytes"
    case PyList(_) => "list"
    case PyTuple(_) => "tuple"
    case PyPathLike(_) => "PosixPath"
    case PyObject(name) => name
  }

  /** Python's `isinstance(o, int)`: `bool` is a subclass of `int`. */
  predicate IsPyInt(o: Py)
  {
    o.PyInt? || o.PyBool?
  }

  function PyIntValue(o: Py): int
    requires IsPyInt(o)
  {
    if o.PyInt? then o.i else if o.flag then 1 else 0
  }

  /**
   * PyObject_IsTrue: None, False, zero and empty containers are false;
   * every other object is true.
   */
  predicate Truthy(o: Py)
  {
    match o
    case PyNone => false
    case PyBool(flag) => flag
    case PyInt(i) => i != 0
    case PyStr(s) => s != ""
    case PyBytes(b) => b != []
    case PyList(items) => items != []
    case PyTuple(elems) => elems != []
    case PyPathLike(_) => true
    case PyObject(_) => true
  }

  /** What `PySequence_GetItem` walks: the items of a list, tuple, str or bytes. */
  function SequenceItems(o: Py): (items: Option<seq<Py>>)
    ensures o.PyList? || o.PyTuple? || o.PyStr? || o.PyBytes? <==> items.Some?
    ensures o.PyStr? ==> items.Some? && |items.value| == |o.s|
    ensures o.PyBytes? ==> items.Some? && |items.value| == |o.b|
  {
    match o
    case PyList(items) => Some(items)
    case PyTuple(elems) => Some(elems)
    case PyStr(s) => Some(seq(|s|, i requires 0 <= i < |s| => PyStr([s[i]])))
    case PyBytes(b) => Some(seq(|b|, i requires 0 <= i < |b| => PyInt(b[i] as int)))
    case _ => None
  }

  /** `PyLong_AsLong`: a C `long`, or the exception it raises. */
  function AsLong(o: Py): (r: Result<int, Exc>)
    ensures r.Ok? ==> LONG_MIN <= r.value <= LONG_MAX
    ensures r.Ok? <==> IsPyInt(o) && LONG_MIN <= PyIntValue(o) <= LONG_MAX
    ensures r.Ok? ==> r.value == PyIntValue(o)
    ensures !IsPyInt(o) ==> r == Err(TypeError(TypeName(o) + " object cannot be interpreted as an integer"))
    ensures IsPyInt(o) && r.Err? ==> r == Err(OverflowError("Python int too large to convert to C long"))
  {
    if !IsPyInt(o) then Err(TypeError(TypeName(o) + " object cannot be interpreted as an integer"))
    else if PyIntValue(o) < LONG_MIN || PyIntValue(o) > LONG_MAX
    then Err(OverflowError("Python int too large to convert to C long"))
    else Ok(PyIntValue(o))
  }

  /**
   * `PyLong_AsLongLong`, the `"L"` argument format: a C `long long`, or
   * the exception it raises. Its overflow message is not the one of
   * `PyLong_AsLong`.
   */
  function AsLongLong(o: Py): (r: Result<int, Exc>)
    ensures r.Ok? <==> IsPyInt(o) && LLONG_MIN <= PyIntValue(o) <= LLONG_MAX
    ensures r.Ok? ==> r.value == PyIntValue(o)
    ensures !IsPyInt(o) ==> r == Err(TypeError(TypeName(o) + " object cannot be interpreted as an integer"))
    ensures IsPyInt(o) && r.Err? ==> r == Err(OverflowError("int too big to convert"))
  {
    if !IsPyInt(o) then Err(TypeError(TypeName(o) + " object cannot be interpreted as an integer"))
    else if PyIntValue(o) < LLONG_MIN || PyIntValue(o) > LLONG_MAX
    then Err(OverflowError("int too big to convert"))
    else Ok(PyIntValue(o))
  }

  /** The `"i"` argument format: `PyLong_AsLong`, then the C `int` range check. */
  function ArgInt(o: Py): (r: Result<int, Exc>)
    ensures r.Ok? <==> IsPyInt(o) && INT_MIN <= PyIntValue(o) <= INT_MAX
    ensures r.Ok? ==> r.value == PyIntValue(o)
    ensures AsLong(o).Err? ==> r == Err(AsLong(o).error)
    ensures AsLong(o).Ok? && r.Err? ==>
      r.error == OverflowError(if AsLong(o).value > INT_MAX then "signed integer is greater than maximum"
                               else "signed integer is less than minimum")
  {
    match AsLong(o)
    case Err(e) => Err(e)
    case Ok(v) =>
      if v > INT_MAX then Err(OverflowError("signed integer is greater than maximum"))
      else if v < INT_MIN then Err(OverflowError("signed integer is less than minimum"))
      else Ok(v)
  }

  /** The `"i"` conversion of an int, case by case. */
  lemma ArgIntOfInt(n: int)
    ensures ArgInt(PyInt(n)) ==
      if n < LONG_MIN || n > LONG_MAX then Err(OverflowError("Python int too large to convert to C long"))
      else if n > INT_MAX then Err(OverflowError("signed integer is greater than maximum"))
      else if n < INT_MIN then Err(OverflowError("signed integer is less than minimum"))
      else Ok(n)
  {
  }

  /** Several `"i"` arguments, converted left to right; the first that fails is the error. */
  function ArgInts(args: seq<Py>): (r: Result<seq<int>, Exc>)
    ensures r.Ok? <==> forall i :: 0 <= i < |args| ==> ArgInt(args[i]).Ok?
    ensures r.Ok? ==> |r.value| == |args| && forall i :: 0 <= i < |args| ==> r.value[i] == PyIntValue(args[i])
    ensures r.Err? ==>
      var i := FirstError(args, ArgInt);
      i < |args| && r.error == ArgInt(args[i]).error && forall k :: 0 <= k < i ==> ArgInt(args[k]).Ok?
  {
    Collect(args, ArgInt)
  }

  // ---- decimal text, as Python's str(int) and C's "%d" write it ----

  predicate IsDigit(c: char)
  {
    '0' <= c <= '9'
  }

  predicate AllDigits(s: string)
  {
    forall i :: 0 <= i < |s| ==> IsDigit(s[i])
  }

  function DigitChar(d: nat): (c: char)
    requires d < 10
    ensures IsDigit(c) && c as int - '0' as int == d
  {
    ('0' as int + d) as char
  }

  /** The value of a string of decimal digits, most significant first. */
  function DigitsValue(s: string): nat
    requires AllDigits(s)
  {
    if s == [] then 0 else DigitsValue(s[..|s| - 1]) * 10 + (s[|s| - 1] as int - '0' as int)
  }

  /** The shortest decimal rendering of a natural number. */
  function NatText(n: nat): string
  {
    if n < 10 then [DigitChar(n)] else NatText(n / 10) + [DigitChar(n % 10)]
  }

  /** Python's `str(i)` and C's `"%d"` for an integer. */
  function IntText(i: int): string
  {
    if i < 0 then "-" + NatText(-i) else NatText(i)
  }

  /** NatText writes digits only, without a leading zero, and denotes its argument. */
  lemma {:induction false} NatTextDenotes(n: nat)
    ensures |NatText(n)| >= 1 && AllDigits(NatText(n))
    ensures DigitsValue(NatText(n)) == n
    ensures NatText(n)[0] == '0' ==> n == 0
  {
    if n >= 10 {
      NatTextDenotes(n / 10);
      var s := NatText(n);
      assert s[..|s| - 1] == NatText(n / 10);
    }
  }

  /** Distinct numbers have distinct renderings. */
  lemma NatTextInjective(m: nat, n: nat)
    requires NatText(m) == NatText(n)
    ensures m == n
  {
    NatTextDenotes(m);
    NatTextDenotes(n);
  }
}
