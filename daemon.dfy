/**
 * The daemon binding, systemd/_daemon.c: argument checks and the choice of
 * libsystemd call for `notify`, the `(count, name...)` tuple of
 * `_listen_fds_with_names`, the port check of `_is_socket_inet` and the
 * address parsing and flow-label rule of `_is_socket_sockaddr`.
 *
 * libsystemd itself is an oracle: a function from the call the binding
 * makes to the integer it returns. Each operation reports the call it made,
 * or `None` when it raised before reaching the library.
 */
module Daemon {
  import opened Base
  import Utf8
  import opened PyUtil
  import Util

  /** SD_LISTEN_FDS_START: the first descriptor passed by socket activation. */
  const LISTEN_FDS_START: int := 3

  /** Which optional libsystemd entry points the module was built with. */
  datatype Caps = Caps(
    pidNotify: bool,
    pidNotifyWithFds: bool,
    listenFdsWithNames: bool,
    isSocketSockaddr: bool)

  /** The libsystemd calls the binding makes, with their arguments. */
  datatype Call =
    | SdNotify(unset: bool, state: Bytes)
    | SdPidNotify(pid: int, unset: bool, state: Bytes)
    | SdPidNotifyWithFds(pid: int, unset: bool, state: Bytes, fds: seq<int>)
    | SdIsFifo(fd: int, path: Option<Bytes>)
    | SdIsSocketInet(fd: int, family: int, socketType: int, listening: int, port: nat)
    | SdIsSocketSockaddr(fd: int, socketType: int, addr: Util.Snapshot, flowinfo: int, listening: int)

  /** The Python result of a call that succeeded: the bool of its return code. */
  function Answer(code: int): (r: Result<bool, Exc>)
    ensures code >= 0 <==> r.Ok?
    ensures r.Ok? ==> (r.value <==> code != 0)
    ensures r.Err? ==> r.error == (if code == -ENOMEM then MemoryError else OSError(-code, None))
  {
    match SetError(code, None, None)
    case Raised(e) => Err(e)
    case Passed(n) => Ok(n != 0)
  }

  // ------------------------------------------------------------- notify

  /**
   * Storing a C `long` in an `int` element, as `arr[i] = value` does, keeps
   * the value exactly when it lies in the range of `int`.
   */
  lemma IntStoreExact(v: int)
    ensures ToCInt(v % 0x1_0000_0000) == v <==> INT_MIN <= v <= INT_MAX
  {
    var m := v % 0x1_0000_0000;
    assert m % 0x1_0000_0000 == m;
    if 0 <= v <= INT_MAX {
      assert m == v;
    } else if INT_MIN <= v < 0 {
      assert m == v + 0x1_0000_0000;
    }
  }

  /** One entry of `fds`: a C long, which must also fit the `int` array element. */
  function FdItem(item: Py): (r: Result<int, Exc>)
    ensures r.Ok? <==> IsPyInt(item) && INT_MIN <= PyIntValue(item) <= INT_MAX
    ensures r.Ok? ==> r.value == PyIntValue(item)
    ensures r.Err? && AsLong(item).Ok? ==> r.error == OverflowError("Value to large for an integer")
    ensures AsLong(item).Err? ==> r == Err(AsLong(item).error)
  {
    match AsLong(item)
    case Err(e) => Err(e)
    case Ok(v) => if INT_MIN <= v <= INT_MAX then Ok(v) else Err(OverflowError("Value to large for an integer"))
  }

  /** The descriptor array built from `fds`: every entry in order, or the first failure. */
  function FdArray(fds: Py): (r: Result<seq<int>, Exc>)
    ensures SequenceItems(fds).None? ==> r == Err(TypeError("object of type " + TypeName(fds) + " has no len()"))
    ensures r.Ok? ==>
      (SequenceItems(fds).Some?
       && |r.value| == |SequenceItems(fds).value|
       && forall i :: 0 <= i < |r.value| ==>
            IsPyInt(SequenceItems(fds).value[i]) && r.value[i] == PyIntValue(SequenceItems(fds).value[i]))
    ensures SequenceItems(fds).Some? ==>
      (r.Ok? <==> forall i :: 0 <= i < |SequenceItems(fds).value| ==> FdItem(SequenceItems(fds).value[i]).Ok?)
  {
    match SequenceItems(fds)
    case None => Err(TypeError("object of type " + TypeName(fds) + " has no len()"))
    case Some(items) => Collect(items, FdItem)
  }

  /**
   * The "s" format for `status`, the first argument of `notify`: a str
   * without NUL, passed on as UTF-8. Any other object is a TypeError that
   * names its type, or `None` for None.
   */
  function StatusArg(o: Py): (r: Result<Bytes, Exc>)
    ensures r.Ok? <==> o.PyStr? && '\0' !in o.s
    ensures r.Ok? ==> Utf8.Decode(r.value) == Some(o.s)
    ensures o.PyStr? ==> r == ArgS(o.s)
    ensures !o.PyStr? ==>
      r == Err(TypeError("notify() argument 1 must be str, not " + (if o.PyNone? then "None" else BareTypeName(o))))
  {
    if o.PyStr? then ArgS(o.s)
    else Err(TypeError("notify() argument 1 must be str, not " + (if o.PyNone? then "None" else BareTypeName(o))))
  }

  /**
   * The checks and the dispatch of `notify`, from the status, the
   * `unset_environment` object ("p": its truth value), the pid and the
   * `fds` object the C code sees (absent, or an object that may be
   * `None`): a negative pid is an OverflowError; pid 0 without fds calls
   * sd_notify, another pid without fds sd_pid_notify, and any fds
   * sd_pid_notify_with_fds with all of them.
   */
  function NotifyPlanFrom(state: Py, unset: Py, pid: Py, given: Option<Py>, caps: Caps): (r: Result<Call, Exc>)
    ensures r.Ok? ==> StatusArg(state).Ok? && ArgInt(pid).Ok? && 0 <= PyIntValue(pid)
    ensures StatusArg(state).Err? ==> r == Err(StatusArg(state).error)
    ensures StatusArg(state).Ok? && ArgInt(pid).Ok? && PyIntValue(pid) < 0 ==> r == Err(OverflowError("Bad pid_t"))
    ensures r.Ok? ==> (r.value.SdNotify? <==> PyIntValue(pid) == 0 && given.None?)
    ensures r.Ok? ==> (r.value.SdPidNotify? <==> PyIntValue(pid) != 0 && given.None?)
    ensures r.Ok? ==> (r.value.SdPidNotifyWithFds? <==> given.Some?)
    ensures r.Ok? ==> r.value.state == StatusArg(state).value && r.value.unset == Truthy(unset)
    ensures r.Ok? && !r.value.SdNotify? ==> r.value.pid == PyIntValue(pid)
    ensures r.Ok? && r.value.SdPidNotifyWithFds? ==> FdArray(given.value) == Ok(r.value.fds)
    ensures r.Ok? && r.value.SdPidNotify? ==> caps.pidNotify
    ensures r.Ok? && r.value.SdPidNotifyWithFds? ==> caps.pidNotifyWithFds
  {
    match StatusArg(state)
    case Err(e) => Err(e)
    case Ok(msg) =>
      match ArgInt(pid)
      case Err(e) => Err(e)
      case Ok(p) =>
        if p < 0 then Err(OverflowError("Bad pid_t"))
        else match given
          case None =>
            if p == 0 then Ok(SdNotify(Truthy(unset), msg))
            else if caps.pidNotify then Ok(SdPidNotify(p, Truthy(unset), msg))
            else Err(SetError(-ENOSYS, None, Some("Compiled without support for sd_pid_notify")).exc)
          case Some(o) =>
            match FdArray(o)
            case Err(e) => Err(e)
            case Ok(fds) =>
              if caps.pidNotifyWithFds then Ok(SdPidNotifyWithFds(p, Truthy(unset), msg, fds))
              else Err(SetError(-ENOSYS, None, Some("Compiled without support for sd_pid_notify_with_fds")).exc)
  }

  /**
   * `notify` as written: `fds` is taken as given whenever the caller passes
   * it, so an explicit `fds=None` reaches PySequence_Length.
   */
  function NotifyPlanAsWritten(state: Py, unset: Py, pid: Py, fds: Option<Py>, caps: Caps): (r: Result<Call, Exc>)
    ensures fds == Some(PyNone) ==> r.Err?
    ensures fds == Some(PyNone) && StatusArg(state).Ok? && ArgInt(pid).Ok? && 0 <= PyIntValue(pid) ==>
      r == Err(TypeError("object of type 'NoneType' has no len()"))
    ensures r.Ok? ==> (r.value.SdPidNotifyWithFds? <==> fds.Some?)
  {
    FdArrayNone();
    NotifyPlanFrom(state, unset, pid, fds, caps)
  }

  /** `None` has no length: PySequence_Length names its type. */
  lemma FdArrayNone()
    ensures FdArray(PyNone) == Err(TypeError("object of type 'NoneType' has no len()"))
  {
    assert TypeName(PyNone) == "'NoneType'";
    assert "object of type " + "'NoneType'" + " has no len()" == "object of type 'NoneType' has no len()";
  }

  /** The documented default `fds=None`, passed explicitly, raises TypeError as written. */
  lemma NotifyExplicitNoneFdsAsWritten(caps: Caps)
    ensures NotifyPlanAsWritten(PyStr("READY=1"), PyBool(false), PyInt(0), None, caps) == Ok(SdNotify(false, Utf8.Encode("READY=1")))
    ensures NotifyPlanAsWritten(PyStr("READY=1"), PyBool(false), PyInt(0), Some(PyNone), caps)
      == Err(TypeError("object of type 'NoneType' has no len()"))
  {
    ArgIntOfInt(0);
    Utf8.EncodeNul("READY=1");
    FdArrayNone();
  }

  /** The descriptors `notify` works with: an explicit `None` means none, like the default. */
  function GivenFds(fds: Option<Py>): (g: Option<Py>)
    ensures g.None? <==> fds.None? || fds == Some(PyNone)
    ensures g.Some? ==> g == fds
  {
    if fds == Some(PyNone) then None else fds
  }

  /** `notify` as intended: an explicit `fds=None` is the default. */
  function NotifyPlan(state: Py, unset: Py, pid: Py, fds: Option<Py>, caps: Caps): (r: Result<Call, Exc>)
    ensures r.Ok? && r.value.SdPidNotifyWithFds? ==> fds.Some? && !fds.value.PyNone?
  {
    NotifyPlanFrom(state, unset, pid, GivenFds(fds), caps)
  }

  /** With the correction, `fds=None` and no `fds` make the same call or raise the same exception. */
  lemma NotifyNoneFdsIsDefault(state: Py, unset: Py, pid: Py, caps: Caps)
    ensures NotifyPlan(state, unset, pid, Some(PyNone), caps) == NotifyPlan(state, unset, pid, None, caps)
    ensures StatusArg(state).Ok? && pid == PyInt(0) ==>
      NotifyPlan(state, unset, pid, Some(PyNone), caps) == Ok(SdNotify(Truthy(unset), StatusArg(state).value))
  {
    assert GivenFds(Some(PyNone)) == GivenFds(None);
  }

  /** What `notify` returns and the call it made, with `fds` taken as written. */
  function NotifyOf(state: Py, unset: Py, pid: Py, fds: Option<Py>, caps: Caps, lib: Call -> int):
    (res: (Result<bool, Exc>, Option<Call>))
    ensures NotifyPlanAsWritten(state, unset, pid, fds, caps).Err? ==>
      res == (Err(NotifyPlanAsWritten(state, unset, pid, fds, caps).error), None)
    ensures NotifyPlanAsWritten(state, unset, pid, fds, caps).Ok? ==>
      res.1 == Some(NotifyPlanAsWritten(state, unset, pid, fds, caps).value) && res.0 == Answer(lib(res.1.value))
  {
    match NotifyPlanAsWritten(state, unset, pid, fds, caps)
    case Err(e) => (Err(e), None)
    case Ok(c) => (Answer(lib(c)), Some(c))
  }

  /**
   * The `arr` buffer of notify: one C `int` per entry of `fds`, stored in
   * order and checked against the `long` it was stored from.
   */
  method FillFds(fds: Py) returns (r: Result<seq<int>, Exc>)
    ensures r == FdArray(fds)
  {
    var items := SequenceItems(fds);
    if items.None? {
      return Err(TypeError("object of type " + TypeName(fds) + " has no len()"));
    }
    var xs := items.value;
    var arr := new int[|xs|];
    var i := 0;
    while i < |xs|
      invariant 0 <= i <= |xs|
      invariant forall k :: 0 <= k < i ==> FdItem(xs[k]) == Ok(arr[k])
    {
      var value := AsLong(xs[i]);
      if value.Err? {
        CollectStops(xs, FdItem, i);
        return Err(value.error);
      }
      arr[i] := ToCInt(value.value % 0x1_0000_0000);
      IntStoreExact(value.value);
      if arr[i] != value.value {
        CollectStops(xs, FdItem, i);
        return Err(OverflowError("Value to large for an integer"));
      }
      i := i + 1;
    }
    CollectAll(xs, FdItem, arr[..]);
    return Ok(arr[..]);
  }

  /**
   * notify: parses the arguments, fills the descriptor array one entry at
   * a time and makes the call the arguments select.
   */
  method Notify(state: Py, unset: Py, pid: Py, fds: Option<Py>, caps: Caps, lib: Call -> int)
    returns (r: Result<bool, Exc>, call: Option<Call>)
    ensures (r, call) == NotifyOf(state, unset, pid, fds, caps, lib)
  {
    var msg := StatusArg(state);
    if msg.Err? {
      return Err(msg.error), None;
    }
    var flag := Truthy(unset);
    var p := ArgInt(pid);
    if p.Err? {
      return Err(p.error), None;
    }
    if p.value < 0 {
      return Err(OverflowError("Bad pid_t")), None;
    }
    var given := fds;
    var arr: seq<int> := [];
    if given.Some? {
      var a := FillFds(given.value);
      if a.Err? {
        return Err(a.error), None;
      }
      arr := a.value;
    }
    var c: Call;
    if p.value == 0 && given.None? {
      c := SdNotify(flag, msg.value);
    } else if given.None? {
      if !caps.pidNotify {
        return Err(SetError(-ENOSYS, None, Some("Compiled without support for sd_pid_notify")).exc), None;
      }
      c := SdPidNotify(p.value, flag, msg.value);
    } else {
      if !caps.pidNotifyWithFds {
        return Err(SetError(-ENOSYS, None, Some("Compiled without support for sd_pid_notify_with_fds")).exc), None;
      }
      c := SdPidNotifyWithFds(p.value, flag, msg.value, arr);
    }
    return Answer(lib(c)), Some(c);
  }

  // --------------------------------------------- listen_fds_with_names

  /**
   * _listen_fds_with_names: a tuple of `r + 1` slots for the `r` the
   * library reports, slot 0 holding `r` and slot `1 + i` the i-th name.
   * The loop stops at the NULL that ends the name array, so a slot whose
   * name is missing stays NULL (`None` here).
   */
  method ListenFdsWithNames(unset: bool, caps: Caps, listen: bool -> (int, seq<string>))
    returns (r: Result<seq<Option<Py>>, Exc>)
    ensures !caps.listenFdsWithNames ==> r == Err(OSError(ENOSYS, None))
    ensures caps.listenFdsWithNames && listen(unset).0 < 0 ==>
      r == Err(if listen(unset).0 == -ENOMEM then MemoryError else OSError(-listen(unset).0, None))
    ensures caps.listenFdsWithNames && listen(unset).0 >= 0 ==>
      (var (n, names) := listen(unset);
       r.Ok? && |r.value| == n + 1 && r.value[0] == Some(PyInt(n))
       && forall i :: 0 <= i < n ==>
            r.value[1 + i] == (if i < |names| then Some(PyStr(names[i])) else None))
  {
    if !caps.listenFdsWithNames {
      return Err(SetError(-ENOSYS, None, Some("Compiled without support for sd_listen_fds_with_names")).exc);
    }
    var (n, names) := listen(unset);
    var st := SetError(n, None, None);
    if st.Raised? {
      return Err(st.exc);
    }
    var tpl := new Option<Py>[n + 1](_ => None);
    tpl[0] := Some(PyInt(n));
    var i := 0;
    while i < n && i < |names|
      invariant 0 <= i <= n && i <= |names|
      invariant tpl[0] == Some(PyInt(n))
      invariant forall k :: 0 <= k < i ==> tpl[1 + k] == Some(PyStr(names[k]))
      invariant forall k :: i + 1 <= k <= n ==> tpl[k] == None
    {
      tpl[1 + i] := Some(PyStr(names[i]));
      i := i + 1;
    }
    return Ok(tpl[..]);
  }

  // ---------------------------------------------------------- is_fifo

  /** _is_fifo: the descriptor as a C int and the path through Unicode_FSConverter. */
  function IsFifoOf(fd: Py, path: Py, lib: Call -> int): (res: (Result<bool, Exc>, Option<Call>))
    ensures res.1.Some? <==> ArgInt(fd).Ok? && UnicodeFsConverter(path).Ok?
    ensures res.1.Some? ==> res.1.value == SdIsFifo(PyIntValue(fd), UnicodeFsConverter(path).value)
    ensures res.1.Some? ==> (res.0.Ok? <==> lib(res.1.value) >= 0)
    ensures res.1.Some? && res.0.Ok? ==> (res.0.value <==> lib(res.1.value) != 0)
  {
    match ArgInt(fd)
    case Err(e) => (Err(e), None)
    case Ok(n) =>
      match UnicodeFsConverter(path)
      case Err(e) => (Err(e), None)
      case Ok(p) =>
        var c := SdIsFifo(n, p);
        var r := lib(c);
        (match SetError(r, p, None)
         case Raised(e) => Err(e)
         case Passed(v) => Ok(v != 0), Some(c))
  }

  // --------------------------------------------------- is_socket_inet

  /**
   * _is_socket_inet(fd, family=AF_UNSPEC, type=0, listening=-1, port=0):
   * the five arguments are C ints (a caller leaving one out passes its
   * default); a port outside 0..65535 is then a ValueError raised before
   * the library is called; otherwise the call is made with the port.
   */
  function IsSocketInetOf(fd: Py, family: Py, socketType: Py, listening: Py, port: Py, lib: Call -> int):
    (res: (Result<bool, Exc>, Option<Call>))
    ensures var a := ArgInts([fd, family, socketType, listening, port]);
      a.Err? ==> res == (Err(a.error), None)
    ensures var a := ArgInts([fd, family, socketType, listening, port]);
      a.Ok? && !(0 <= a.value[4] <= UINT16_MAX) ==>
        res == (Err(ValueError("port must fit into uint16_t")), None)
    ensures var a := ArgInts([fd, family, socketType, listening, port]);
      a.Ok? && 0 <= a.value[4] <= UINT16_MAX ==>
        && res.1 == Some(SdIsSocketInet(a.value[0], a.value[1], a.value[2], a.value[3], a.value[4]))
        && res.0 == Answer(lib(res.1.value))
  {
    match ArgInts([fd, family, socketType, listening, port])
    case Err(e) => (Err(e), None)
    case Ok(v) =>
      if v[4] < 0 || v[4] > UINT16_MAX then
        (Err(SetError(-EINVAL, None, Some("port must fit into uint16_t")).exc), None)
      else
        var c := SdIsSocketInet(v[0], v[1], v[2], v[3], v[4]);
        (Answer(lib(c)), Some(c))
  }

  /** A port too large for a C int is the int conversion's OverflowError, not the range check's ValueError. */
  lemma IsSocketInetPortOverflow(lib: Call -> int)
    ensures IsSocketInetOf(PyInt(3), PyInt(0), PyInt(0), PyInt(-1), PyInt(INT_MAX + 1), lib)
      == (Err(OverflowError("signed integer is greater than maximum")), None)
  {
    ArgIntOfInt(3); ArgIntOfInt(0); ArgIntOfInt(-1); ArgIntOfInt(INT_MAX + 1);
    var big := [PyInt(3), PyInt(0), PyInt(0), PyInt(-1), PyInt(INT_MAX + 1)];
    CollectStops(big, ArgInt, 4);
  }

  /** A port that is a C int but not a uint16_t is the range check's ValueError. */
  lemma IsSocketInetPortOutOfRange(lib: Call -> int)
    ensures IsSocketInetOf(PyInt(3), PyInt(0), PyInt(0), PyInt(-1), PyInt(UINT16_MAX + 1), lib)
      == (Err(ValueError("port must fit into uint16_t")), None)
  {
    ArgIntOfInt(3); ArgIntOfInt(0); ArgIntOfInt(-1); ArgIntOfInt(UINT16_MAX + 1);
    var args := [PyInt(3), PyInt(0), PyInt(0), PyInt(-1), PyInt(UINT16_MAX + 1)];
    CollectAll(args, ArgInt, [3, 0, 0, -1, UINT16_MAX + 1]);
  }

  /** A port too large for a C long fails inside PyLong_AsLong, with its own OverflowError. */
  lemma IsSocketInetPortBeyondLong(lib: Call -> int)
    ensures IsSocketInetOf(PyInt(3), PyInt(0), PyInt(0), PyInt(-1), PyInt(ULONG_MAX + 1), lib)
      == (Err(OverflowError("Python int too large to convert to C long")), None)
  {
    var huge := [PyInt(3), PyInt(0), PyInt(0), PyInt(-1), PyInt(ULONG_MAX + 1)];
    ArgIntOfInt(3); ArgIntOfInt(0); ArgIntOfInt(-1); ArgIntOfInt(ULONG_MAX + 1);
    CollectStops(huge, ArgInt, 4);
  }

  // ----------------------------------------------- is_socket_sockaddr

  /** `union sockaddr_union addr = {};` and `addr_len`, before parsing. */
  const ZeroUnion: Util.Snapshot := Util.Snapshot(0, Util.Zeros(2), Util.Zeros(4), Util.Zeros(16), 0, 0)

  /**
   * _is_socket_sockaddr(fd, address, type=0, flowinfo=0, listening=-1):
   * the descriptor and the address are converted first, then the three
   * optional C ints; the result is that of IsSocketSockaddrWith on the
   * converted values.
   */
  function IsSocketSockaddrOf(fd: Py, address: string, socketType: Py, flowinfo: Py, listening: Py,
                              host: Util.Host, caps: Caps, lib: Call -> int): (res: (Result<bool, Exc>, Option<Call>))
    ensures ArgInt(fd).Err? ==> res == (Err(ArgInt(fd).error), None)
    ensures ArgInt(fd).Ok? && ArgS(address).Err? ==> res == (Err(ArgS(address).error), None)
    ensures var a := ArgInts([socketType, flowinfo, listening]);
      ArgInt(fd).Ok? && ArgS(address).Ok? && a.Err? ==> res == (Err(a.error), None)
    ensures var a := ArgInts([socketType, flowinfo, listening]);
      a.Ok? && ArgInt(fd).Ok? ==>
        res == IsSocketSockaddrWith(ArgInt(fd).value, address, a.value[0], a.value[1], a.value[2], host, caps, lib)
  {
    match ArgInt(fd)
    case Err(e) => (Err(e), None)
    case Ok(n) =>
      match ArgS(address)
      case Err(e) => (Err(e), None)
      case Ok(_) =>
        match ArgInts([socketType, flowinfo, listening])
        case Err(e) => (Err(e), None)
        case Ok(v) => IsSocketSockaddrWith(n, address, v[0], v[1], v[2], host, caps, lib)
  }

  /** A flow label too large for a C int is an OverflowError, whatever the address. */
  lemma IsSocketSockaddrFlowinfoOverflow(address: string, host: Util.Host, caps: Caps, lib: Call -> int)
    requires '\0' !in address
    ensures IsSocketSockaddrOf(PyInt(3), address, PyInt(0), PyInt(INT_MAX + 1), PyInt(-1), host, caps, lib)
      == (Err(OverflowError("signed integer is greater than maximum")), None)
  {
    ArgIntOfInt(3); ArgIntOfInt(0); ArgIntOfInt(INT_MAX + 1);
    CollectStops([PyInt(0), PyInt(INT_MAX + 1), PyInt(-1)], ArgInt, 1);
  }

  /**
   * The checks after argument conversion: the address is parsed as
   * ListenStream= does; a nonzero flow label is refused unless the address
   * is IPv6, where it is stored; then the library checks the descriptor
   * against the address.
   */
  function IsSocketSockaddrWith(fd: int, address: string, socketType: int, flowinfo: int, listening: int,
                                host: Util.Host, caps: Caps, lib: Call -> int): (res: (Result<bool, Exc>, Option<Call>))
    ensures ArgS(address).Err? ==> res == (Err(ArgS(address).error), None)
    ensures res.1.Some? ==>
      (ArgS(address).Ok? && caps.isSocketSockaddr
       && Util.ParseSpec(address, host).code == 0
       && (flowinfo != 0 ==> Util.ParseSpec(address, host).writes.family == Some(Util.AF_INET6)))
    ensures res.1.Some? ==>
      res.1.value == SdIsSocketSockaddr(fd, socketType, Util.Apply(ZeroUnion, Util.ParseSpec(address, host).writes),
                                        flowinfo, listening)
      && res.0 == Answer(lib(res.1.value))
    ensures ArgS(address).Ok? && Util.ParseSpec(address, host).code < 0 ==>
      res == (Err(SetError(Util.ParseSpec(address, host).code, None, Some("Cannot parse address")).exc), None)
    ensures (ArgS(address).Ok? && Util.ParseSpec(address, host).code == 0 && flowinfo != 0
             && Util.ParseSpec(address, host).writes.family != Some(Util.AF_INET6)) ==>
      res == (Err(ValueError("flowinfo is only applicable to IPv6 addresses")), None)
    ensures (ArgS(address).Ok? && Util.ParseSpec(address, host).code == 0 && !caps.isSocketSockaddr
             && (flowinfo != 0 ==> Util.ParseSpec(address, host).writes.family == Some(Util.AF_INET6))) ==>
      res == (Err(OSError(ENOSYS, None)), None)
  {
    match ArgS(address)
    case Err(e) => (Err(e), None)
    case Ok(_) =>
      var o := Util.ParseSpec(address, host);
      if o.code < 0 then (Err(SetError(o.code, None, Some("Cannot parse address")).exc), None)
      else if flowinfo != 0 && o.writes.family != Some(Util.AF_INET6) then
        (Err(SetError(-EINVAL, None, Some("flowinfo is only applicable to IPv6 addresses")).exc), None)
      else if !caps.isSocketSockaddr then
        (Err(SetError(-ENOSYS, None, Some("Compiled without support for sd_is_socket_sockaddr")).exc), None)
      else
        var c := SdIsSocketSockaddr(fd, socketType, Util.Apply(ZeroUnion, o.writes), flowinfo, listening);
        (Answer(lib(c)), Some(c))
  }

  /**
   * is_socket_sockaddr on a fresh union: parse_sockaddr fills it in place,
   * and the flow label is written only for an IPv6 address.
   */
  method IsSocketSockaddr(fd: Py, address: string, socketType: Py, flowinfo: Py, listening: Py,
                          host: Util.Host, caps: Caps, lib: Call -> int) returns (r: Result<bool, Exc>, call: Option<Call>)
    ensures (r, call) == IsSocketSockaddrOf(fd, address, socketType, flowinfo, listening, host, caps, lib)
  {
    var n := ArgInt(fd);
    if n.Err? {
      return Err(n.error), None;
    }
    var a := ArgS(address);
    if a.Err? {
      return Err(a.error), None;
    }
    var v := ArgInts([socketType, flowinfo, listening]);
    if v.Err? {
      return Err(v.error), None;
    }
    r, call := CheckSockaddr(n.value, address, v.value[0], v.value[1], v.value[2], host, caps, lib);
  }

  /** The steps after argument conversion: parse into a union, store the flow label, call the library. */
  method CheckSockaddr(fd: int, address: string, socketType: int, flowinfo: int, listening: int,
                       host: Util.Host, caps: Caps, lib: Call -> int) returns (r: Result<bool, Exc>, call: Option<Call>)
    requires ArgS(address).Ok?
    ensures (r, call) == IsSocketSockaddrWith(fd, address, socketType, flowinfo, listening, host, caps, lib)
  {
    var addr := new Util.SockaddrUnion();
    var code := addr.Parse(address, host);
    if code < 0 {
      return Err(SetError(code, None, Some("Cannot parse address")).exc), None;
    }
    if flowinfo != 0 {
      if addr.family != Util.AF_INET6 {
        return Err(SetError(-EINVAL, None, Some("flowinfo is only applicable to IPv6 addresses")).exc), None;
      }
      addr.flowinfo := flowinfo;
    }
    if !caps.isSocketSockaddr {
      return Err(SetError(-ENOSYS, None, Some("Compiled without support for sd_is_socket_sockaddr")).exc), None;
    }
    var c := SdIsSocketSockaddr(fd, socketType, addr.State(), addr.flowinfo, listening);
    return Answer(lib(c)), Some(c);
  }
}
