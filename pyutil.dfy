/**
 * Helpers shared by the C extension modules (src/systemd/pyutil.c): turning
 * a negative libsystemd return code into a Python exception, turning an
 * absolute CLOCK_MONOTONIC deadline into a relative poll timeout, and the
 * path converter that lets `None` stand for "no path".
 */
module PyUtil {
  import opened Base
  import Utf8

  /** What a C helper hands back to its caller: a value, or -1 with an exception set. */
  datatype Status = Passed(code: int) | Raised(exc: Exc)

  /** The errno an exception raised by SetError stands for. */
  function ErrnoOf(e: Exc): int
  {
    match e
    case ValueError(_) => EINVAL
    case MemoryError => ENOMEM
    case OSError(errno, _) => errno
    case _ => 0
  }

  /**
   * set_error: a non-negative code passes through; a negative one raises
   * ValueError (only for -EINVAL, and only when the caller supplied a
   * message), MemoryError for -ENOMEM, and OSError carrying errno and path
   * otherwise.
   */
  function SetError(r: int, path: Option<Bytes>, invalidMessage: Option<string>): (s: Status)
    ensures r >= 0 <==> s.Passed?
    ensures s.Passed? ==> s.code == r
    ensures s.Raised? ==> ErrnoOf(s.exc) == -r
    ensures s.Raised? ==> (s.exc.ValueError? <==> r == -EINVAL && invalidMessage.Some?)
    ensures s.Raised? ==> (s.exc.MemoryError? <==> r == -ENOMEM)
    ensures s.Raised? ==> (s.exc.ValueError? || s.exc.MemoryError? || s.exc.OSError?)
    ensures s.Raised? && s.exc.ValueError? ==> s.exc.message == invalidMessage.value
    ensures s.Raised? && s.exc.OSError? ==> s.exc.filename == path
  {
    if r >= 0 then Passed(r)
    else if r == -EINVAL && invalidMessage.Some? then Raised(ValueError(invalidMessage.value))
    else if r == -ENOMEM then Raised(MemoryError)
    else Raised(OSError(-r, path))
  }

  /** Two negative codes that raise the same exception are the same code. */
  lemma SetErrorInjective(r1: int, r2: int, path: Option<Bytes>, msg: Option<string>)
    requires r1 < 0 && r2 < 0
    requires SetError(r1, path, msg) == SetError(r2, path, msg)
    ensures r1 == r2
  {
    assert ErrnoOf(SetError(r1, path, msg).exc) == -r1;
  }

  /** A C `int` as GCC's two's-complement conversion makes it from an unsigned value. */
  function ToCInt(x: nat): (r: int)
    ensures INT_MIN <= r <= INT_MAX
    ensures (r - x) % 0x1_0000_0000 == 0
    ensures x <= INT_MAX ==> r == x
  {
    var m := x % 0x1_0000_0000;
    if m > INT_MAX then m - 0x1_0000_0000 else m
  }

  /**
   * absolute_timeout as written: -1 stands for "no timeout"; otherwise the
   * milliseconds from `now` (the monotonic clock in microseconds) until the
   * deadline `t`, rounded up, computed in uint64_t and stored in an `int`.
   */
  function AbsoluteTimeoutAsWritten(t: nat, now: nat): (msec: int)
    requires t <= UINT64_MAX && now <= UINT64_MAX
    ensures INT_MIN <= msec <= INT_MAX
    ensures t == UINT64_MAX ==> msec == -1
    ensures t != UINT64_MAX && t <= now ==> msec == 0
  {
    if t == UINT64_MAX then -1
    else if t > now then ToCInt(((t - now + 999) % TWO_64) / 1000)
    else 0
  }

  /** A deadline 2^31 milliseconds ahead comes back as a negative timeout. */
  lemma AbsoluteTimeoutAsWrittenGoesNegative()
    ensures AbsoluteTimeoutAsWritten(2_147_483_648_000, 0) == INT_MIN
  {
  }

  /** A deadline near the end of the uint64 range comes back as an immediate one. */
  lemma AbsoluteTimeoutAsWrittenWrapsNearMax()
    ensures AbsoluteTimeoutAsWritten(UINT64_MAX - 1, 0) == 0
  {
  }

  /**
   * absolute_timeout as intended: the remaining time rounded up to whole
   * milliseconds, never negative for a finite deadline.
   */
  function AbsoluteTimeout(t: nat, now: nat): (msec: int)
    requires t <= UINT64_MAX && now <= UINT64_MAX
    ensures t == UINT64_MAX <==> msec == -1
    ensures t != UINT64_MAX && t <= now ==> msec == 0
    ensures t != UINT64_MAX && t > now ==> msec >= 1 && (msec - 1) * 1000 < t - now <= msec * 1000
  {
    if t == UINT64_MAX then -1
    else if t > now then (t - now + 999) / 1000
    else 0
  }

  /** Within the range of a C `int`, the code as written computes the intended value. */
  lemma AbsoluteTimeoutAgrees(t: nat, now: nat)
    requires t <= UINT64_MAX && now <= UINT64_MAX
    requires t <= now + INT_MAX * 1000
    ensures AbsoluteTimeoutAsWritten(t, now) == AbsoluteTimeout(t, now)
  {
    if t != UINT64_MAX && t > now {
      assert t - now + 999 < TWO_64;
      assert (t - now + 999) % TWO_64 == t - now + 999;
      assert (t - now + 999) / 1000 <= INT_MAX;
    }
  }

  /**
   * os.fspath: a str or bytes as it is, an os.PathLike object's
   * `__fspath__()` result when that is a str or bytes, and a TypeError for
   * anything else.
   */
  function FsPath(o: Py): (p: Result<Py, Exc>)
    ensures p.Ok? ==> p.value.PyStr? || p.value.PyBytes?
    ensures o.PyStr? || o.PyBytes? ==> p == Ok(o)
    ensures o.PyPathLike? && (o.fspath.PyStr? || o.fspath.PyBytes?) ==> p == Ok(o.fspath)
    ensures p.Err? <==> !(o.PyStr? || o.PyBytes? || (o.PyPathLike? && (o.fspath.PyStr? || o.fspath.PyBytes?)))
    ensures !(o.PyStr? || o.PyBytes? || o.PyPathLike?) ==>
      p == Err(TypeError("expected str, bytes or os.PathLike object, not " + BareTypeName(o)))
    ensures o.PyPathLike? && !(o.fspath.PyStr? || o.fspath.PyBytes?) ==>
      p == Err(TypeError("expected " + BareTypeName(o) + ".__fspath__() to return str or bytes, not " + BareTypeName(o.fspath)))
  {
    if o.PyStr? || o.PyBytes? then Ok(o)
    else if !o.PyPathLike? then Err(TypeError("expected str, bytes or os.PathLike object, not " + BareTypeName(o)))
    else if o.fspath.PyStr? || o.fspath.PyBytes? then Ok(o.fspath)
    else Err(TypeError("expected " + BareTypeName(o) + ".__fspath__() to return str or bytes, not " + BareTypeName(o.fspath)))
  }

  /**
   * PyUnicode_FSConverter: the path os.fspath gives, a str in the
   * file-system encoding (UTF-8) or bytes, without NUL.
   */
  function FsConvert(o: Py): (r: Result<Bytes, Exc>)
    ensures r.Ok? ==> 0 as byte !in r.value
    ensures FsPath(o).Err? ==> r == Err(FsPath(o).error)
    ensures FsPath(o).Ok? ==>
      var p := FsPath(o).value;
      (r.Ok? <==> (p.PyStr? && '\0' !in p.s) || (p.PyBytes? && 0 as byte !in p.b))
      && (p.PyBytes? && r.Ok? ==> r.value == p.b)
      && (p.PyStr? && r.Ok? ==> Utf8.Decode(r.value) == Some(p.s))
      && (r.Err? ==> r.error == ValueError("embedded null byte"))
    ensures r.Ok? ==> o.PyStr? || o.PyBytes? || o.PyPathLike?
  {
    match FsPath(o)
    case Err(e) => Err(e)
    case Ok(p) =>
      if p.PyStr? then
        Utf8.EncodeNul(p.s);
        Utf8.DecodeEncode(p.s);
        if '\0' in p.s then Err(ValueError("embedded null byte")) else Ok(Utf8.Encode(p.s))
      else if 0 as byte in p.b then Err(ValueError("embedded null byte"))
      else Ok(p.b)
  }

  /** An os.PathLike object converts as the str or bytes its `__fspath__()` returns. */
  lemma FsConvertPathLike(p: Py)
    requires p.PyStr? || p.PyBytes?
    ensures FsConvert(PyPathLike(p)) == FsConvert(p)
  {
  }

  /**
   * Unicode_FSConverter: `None` converts to a NULL path (a request for the
   * default), anything else as PyUnicode_FSConverter converts it.
   */
  function UnicodeFsConverter(o: Py): (r: Result<Option<Bytes>, Exc>)
    ensures o.PyNone? ==> r == Ok(None)
    ensures !o.PyNone? ==> r.Ok? == FsConvert(o).Ok?
    ensures !o.PyNone? && r.Ok? ==> r.value == Some(FsConvert(o).value)
    ensures !o.PyNone? && r.Err? ==> r.error == FsConvert(o).error
  {
    if o.PyNone? then Ok(None)
    else match FsConvert(o)
      case Ok(b) => Ok(Some(b))
      case Err(e) => Err(e)
  }

  /** The `"s"` argument format: a str as NUL-free UTF-8. */
  function ArgS(s: string): (r: Result<Bytes, Exc>)
    ensures r.Ok? <==> '\0' !in s
    ensures r.Ok? ==> 0 as byte !in r.value && Utf8.Decode(r.value) == Some(s)
  {
    Utf8.EncodeNul(s);
    Utf8.DecodeEncode(s);
    if '\0' in s then Err(ValueError("embedded null character")) else Ok(Utf8.Encode(s))
  }
}
