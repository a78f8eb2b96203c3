/**
 * The Python half of the daemon module, src/systemd/daemon.py: file
 * objects stand for their descriptors, and the descriptors passed by
 * socket activation are numbered from LISTEN_FDS_START.
 */
module DaemonPy {
  import opened Base
  import opened PyUtil
  import Daemon

  /**
   * _convert_fileobj: the result of `fileobj.fileno()`, or the object
   * itself when it has no such attribute. `fileno` answers the attribute
   * lookup and call for each object.
   */
  function ConvertFileobj(fileobj: Py, fileno: Py -> Result<Py, Exc>): (r: Result<Py, Exc>)
    ensures fileno(fileobj).Ok? ==> r == fileno(fileobj)
    ensures fileno(fileobj).Err? && fileno(fileobj).error.AttributeError? ==> r == Ok(fileobj)
    ensures r.Err? <==> fileno(fileobj).Err? && !fileno(fileobj).error.AttributeError?
  {
    match fileno(fileobj)
    case Ok(fd) => Ok(fd)
    case Err(e) => if e.AttributeError? then Ok(fileobj) else Err(e)
  }

  /** is_fifo: the descriptor of the object, checked by _is_fifo. */
  function IsFifo(fileobj: Py, path: Py, fileno: Py -> Result<Py, Exc>, lib: Daemon.Call -> int): (r: Result<bool, Exc>)
    ensures ConvertFileobj(fileobj, fileno).Err? ==> r == Err(ConvertFileobj(fileobj, fileno).error)
    ensures var fd := ConvertFileobj(fileobj, fileno);
      fd.Ok? && ArgInt(fd.value).Err? ==> r == Err(ArgInt(fd.value).error)
    ensures var fd := ConvertFileobj(fileobj, fileno);
      fd.Ok? && ArgInt(fd.value).Ok? && UnicodeFsConverter(path).Ok? ==>
        var code := lib(Daemon.SdIsFifo(PyIntValue(fd.value), UnicodeFsConverter(path).value));
        (r.Ok? <==> code >= 0) && (r.Ok? ==> (r.value <==> code != 0))
  {
    match ConvertFileobj(fileobj, fileno)
    case Err(e) => Err(e)
    case Ok(fd) => Daemon.IsFifoOf(fd, path, lib).0
  }

  /**
   * A file object and the descriptor it wraps get the same answer, since
   * an int has no `fileno` attribute and passes through unchanged.
   */
  lemma FileAndDescriptorAgree(file: Py, fd: int, path: Py, fileno: Py -> Result<Py, Exc>, lib: Daemon.Call -> int)
    requires fileno(file) == Ok(PyInt(fd))
    requires fileno(PyInt(fd)).Err? && fileno(PyInt(fd)).error.AttributeError?
    ensures IsFifo(file, path, fileno, lib) == IsFifo(PyInt(fd), path, fileno, lib)
    ensures INT_MIN <= fd <= INT_MAX && UnicodeFsConverter(path).Ok? ==>
      IsFifo(file, path, fileno, lib).Ok? == (lib(Daemon.SdIsFifo(fd, UnicodeFsConverter(path).value)) >= 0)
  {
    assert ConvertFileobj(file, fileno) == Ok(PyInt(fd));
    assert ConvertFileobj(PyInt(fd), fileno) == Ok(PyInt(fd));
  }

  /** Python's `list(range(lo, hi))`. */
  function Range(lo: int, hi: int): (r: seq<int>)
    ensures |r| == if lo < hi then hi - lo else 0
    ensures forall i :: 0 <= i < |r| ==> r[i] == lo + i
    decreases hi - lo
  {
    if lo >= hi then [] else [lo] + Range(lo + 1, hi)
  }

  /**
   * listen_fds: `_listen_fds` hands back the count sd_listen_fds reports,
   * or raises for a negative one; the list holds exactly that many
   * consecutive descriptors from LISTEN_FDS_START on.
   */
  function ListenFds(code: int): (r: Result<seq<int>, Exc>)
    ensures r.Ok? <==> code >= 0
    ensures r.Ok? ==> |r.value| == code
    ensures r.Ok? ==> forall i :: 0 <= i < code ==> r.value[i] == Daemon.LISTEN_FDS_START + i
    ensures r.Err? ==> r.error == SetError(code, None, None).exc
  {
    match SetError(code, None, None)
    case Raised(e) => Err(e)
    case Passed(num) => Ok(Range(Daemon.LISTEN_FDS_START, Daemon.LISTEN_FDS_START + num))
  }

  /** A map whose keys are the `n` integers from `lo` on has `n` entries. */
  lemma {:induction false} KeysCount<V>(m: map<int, V>, lo: int, n: nat)
    requires forall k :: k in m <==> lo <= k < lo + n
    ensures |m| == n
  {
    if n > 0 {
      var top := lo + n - 1;
      var rest := m - {top};
      KeysCount(rest, lo, n - 1);
      assert m.Keys == rest.Keys + {top};
    } else {
      assert m.Keys == {};
    }
  }

  /**
   * listen_fds_with_names: descriptor LISTEN_FDS_START + i mapped to item
   * 1 + i of the tuple, for each i below item 0. An empty tuple or one too
   * short for its count is an IndexError; a count that is not an int a
   * TypeError.
   */
  method ListenFdsWithNames(composite: seq<Py>) returns (r: Result<map<int, Py>, Exc>)
    ensures |composite| == 0 ==> r == Err(IndexError("tuple index out of range"))
    ensures |composite| >= 1 && !IsPyInt(composite[0]) ==>
      r == Err(TypeError(TypeName(composite[0]) + " object cannot be interpreted as an integer"))
    ensures r.Ok? <==> |composite| >= 1 && IsPyInt(composite[0]) && PyIntValue(composite[0]) < |composite|
    ensures r.Err? && |composite| >= 1 && IsPyInt(composite[0]) ==> r.error == IndexError("tuple index out of range")
    ensures r.Ok? ==> forall fd :: fd in r.value <==>
      Daemon.LISTEN_FDS_START <= fd < Daemon.LISTEN_FDS_START + PyIntValue(composite[0])
    ensures r.Ok? ==> forall fd :: fd in r.value ==> r.value[fd] == composite[1 + fd - Daemon.LISTEN_FDS_START]
    ensures r.Ok? ==> |r.value| == (if PyIntValue(composite[0]) > 0 then PyIntValue(composite[0]) else 0)
  {
    if |composite| == 0 {
      return Err(IndexError("tuple index out of range"));
    }
    if !IsPyInt(composite[0]) {
      return Err(TypeError(TypeName(composite[0]) + " object cannot be interpreted as an integer"));
    }
    var n := PyIntValue(composite[0]);
    var retval: map<int, Py> := map[];
    var i := 0;
    while i < n
      invariant 0 <= i <= (if n > 0 then n else 0)
      invariant i < |composite|
      invariant forall fd :: fd in retval <==> Daemon.LISTEN_FDS_START <= fd < Daemon.LISTEN_FDS_START + i
      invariant forall fd :: fd in retval ==> retval[fd] == composite[1 + fd - Daemon.LISTEN_FDS_START]
    {
      if 1 + i >= |composite| {
        return Err(IndexError("tuple index out of range"));
      }
      retval := retval[i + Daemon.LISTEN_FDS_START := composite[1 + i]];
      i := i + 1;
    }
    KeysCount(retval, Daemon.LISTEN_FDS_START, i);
    return Ok(retval);
  }
}
