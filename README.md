# python-systemd in Dafny

A model of the parts of python-systemd that contain their own logic, as opposed to
the parts that only forward calls to libsystemd. python-systemd is the Python
binding for libsystemd's journal and daemon APIs.

The model covers:

- **Journal reader binding**: the `_Reader` type of `_reader.c`. The class
  `Reader.Reader` has a single field, the journal handle `j`, which the methods
  assign. The reader is closed exactly when `j` is `None`. The model includes
  record splitting, the entry dictionary, the `next`/`previous` skip dispatch (a call without an argument passes skip=1, the default of `_reader.c:494`, which callers of `Reader.NextOf` supply as `PyInt(1)`),
  the choice of open mode, `close`, the timeout sentinel, catalog failures,
  `query_unique`, `enumerate_fields` and `data_threshold`.
- **Python reader layer** of `journal.py` (`JournalPy`): the converter chain,
  field-name validation, `FIELD=value` lines, `add_match`, `log_level`,
  `get_next`/`get_previous`/`__next__`, the argument list of `send`,
  `JournalHandler.__init__` and `map_priority`.
- **Helpers of `pyutil.c`** (`PyUtil`): `set_error`, `absolute_timeout` and
  `Unicode_FSConverter`.
- **Parsers of `util.c`** (`Util`): `safe_atou` over a model of C `strtoul`
  with base 0, and `parse_sockaddr`/`assign_address`.
  - The `sockaddr_union` those two fill in place is the class
    `Util.SockaddrUnion`.
  - The `ListenStream=` syntax includes the bracketed IPv6 literal of section
    3.2.2 of RFC 3986.
- **Argument handling of `_daemon.c`** (`Daemon`) and **of `daemon.py`**
  (`DaemonPy`).
- **Build scripts**:
  - `generate_version.py` (`Version`), which derives a PEP 440 version with
    its `.devN+commit.dYYYYMMDD` trailer from `git describe` output;
  - `update-constants.py` (`Constants`), which turns `#define SD_MESSAGE_*`
    header lines into `add_id(...)` lines.

Library calls are parameters:

- The libsystemd journal is the module `Engine`. A journal is a sequence of
  entries, each a sequence of raw `NAME=VALUE` records, together with:
  - a position;
  - the list of matches;
  - the data threshold;
  - the timeout;
  - a cursor over the field names.
  A NULL handle makes every engine call return `-EINVAL`.
- `sd_notify*`, `sd_is_*`, `sd_listen_fds*`, `inet_pton`, `if_nametoindex`,
  `access("/proc/net/if_inet6")`, `fileno()`, `str()`,
  `datetime.fromisoformat` and the clocks are functions or values passed in.
- The module `Base` holds the Python object and exception shapes. `Utf8`
  holds strict UTF-8 encoding and decoding. `PyText` holds the `str` methods
  the scripts use.

Where a source function changes state step by step, the model is a method
proved against a specification function. Examples:

- `Reader.BuildEntryDict` (the `get_all` loop) is proved against
  `Reader.GetAllOf`.
- `Daemon.FillFds` (the `fds` loop) is proved against `Daemon.FdArray`.
- `Constants.ExtractDefineLines` is proved against `Constants.DefineLines`.
- `Version.BumpLast` (the pop/append) is proved against
  `Version.NextVersion`.

The lemmas then state what the source promises about those functions.

## Model

| member | source | states |
|---|---|---|
| PyUtil.SetError | src/systemd/pyutil.c:28-40 | r ≥ 0 passes r through. -EINVAL with a message is ValueError(message). -ENOMEM is MemoryError. Every other negative r is OSError with errno -r and the given path. |
| PyUtil.SetErrorInjective | src/systemd/pyutil.c:28-40 | Two negative codes that raise the same exception are the same code, so the errno survives the mapping. |
| PyUtil.ToCInt | src/systemd/pyutil.c:22 | The `(int)` conversion gives a value in the C int range that is congruent to its input mod 2^32. It is the identity on values up to INT_MAX. |
| PyUtil.AbsoluteTimeoutAsWritten | src/systemd/pyutil.c:12-26 | absolute_timeout as written: -1 for the UINT64_MAX sentinel, 0 for a deadline at or before now, and otherwise a value in the C int range. |
| PyUtil.AbsoluteTimeoutAsWrittenGoesNegative | src/systemd/pyutil.c:21-22 | A deadline 2^31 ms ahead of now gives INT_MIN. |
| PyUtil.AbsoluteTimeoutAsWrittenWrapsNearMax | src/systemd/pyutil.c:22 | A deadline of UINT64_MAX-1 gives 0, because the `+ 999` wraps. |
| PyUtil.AbsoluteTimeout | src/systemd/pyutil.c:12-26 | -1 exactly for the UINT64_MAX sentinel. 0 for a past deadline. Otherwise the least msec ≥ 1 with msec·1000 ≥ t - now, i.e. the ceiling in milliseconds. |
| PyUtil.AbsoluteTimeoutAgrees | src/systemd/pyutil.c:12-26 | Within INT_MAX ms of now, the code as written equals the intended ceiling. |
| PyUtil.FsPath | src/systemd/pyutil.c:57 | `os.fspath`: str and bytes are returned as they are, and a path-like object gives its `__fspath__` str or bytes. Any other object is TypeError("expected str, bytes or os.PathLike object, not <type>"), and a path-like object whose `__fspath__` gives something else is TypeError("expected <type>.__fspath__() to return str or bytes, not <type>"), with the bare type names. |
| PyUtil.FsConvert | src/systemd/pyutil.c:57 | A failing os.fspath error is passed on. Otherwise the conversion succeeds iff the path has no NUL, and the error is ValueError("embedded null byte"). Bytes pass unchanged and a str comes back as bytes that decode to it. Only str, bytes and path-like objects succeed. |
| PyUtil.FsConvertPathLike | src/systemd/pyutil.c:57 | A path-like object converts exactly as the str or bytes it stands for. |
| PyUtil.UnicodeFsConverter | src/systemd/pyutil.c:42-58 | None gives a NULL result and success. Anything else gives whatever the filesystem conversion gives. |
| PyUtil.ArgS | src/systemd/_reader.c:585-586 | A "s" argument succeeds iff the str has no NUL. Its bytes decode back to the str. |
| Base.AsLong | src/systemd/_reader.c:172 | `PyLong_AsLong`: an int in the C long range is returned unchanged. A value outside it is OverflowError("Python int too large to convert to C long"). A non-int is TypeError("'<type>' object cannot be interpreted as an integer"). |
| Base.AsLongLong | src/systemd/_reader.c:496 | The "L" format (`PyLong_AsLongLong`): an int in the int64 range is returned unchanged. Outside it, OverflowError("int too big to convert"). A non-int is TypeError("'<type>' object cannot be interpreted as an integer"). |
| Base.ArgInt | systemd/_daemon.c:372-376 | The "i" format: succeeds iff the argument is an int in the C int range. PyLong_AsLong's error comes first. A long outside the int range is OverflowError("signed integer is greater than maximum") or "… less than minimum". |
| Base.ArgInts | systemd/_daemon.c:372-376 | A run of "i" conversions succeeds iff each one does, with each value in order. Otherwise it fails with the first failing conversion's error. |
| Util.Strtoul | src/systemd/util.c:54 | strtoul base 0: the end offset is within the string, the value is within unsigned long, and an overflow has consumed characters. |
| Util.SafeAtou | src/systemd/util.c:38-66 | Success iff strtoul reports no overflow, consumes the whole non-empty string, and gives a value ≤ UINT_MAX, with no leading `-`; the result is then strtoul's value. An overflow in strtoul is -ERANGE even when junk follows the digits, because errno is tested first. Without overflow, -EINVAL exactly when there is no digit or the digits are followed by anything. The remaining errors, a leading `-` and a value above UINT_MAX, are -ERANGE. |
| Util.SafeAtouDecimal | src/systemd/util.c:38-66 | Every decimal text of n ≤ UINT_MAX parses back to n. |
| Util.SafeAtouTooLarge | src/systemd/util.c:61-62 | A decimal n > UINT_MAX is -ERANGE. |
| Util.SafeAtouNegative | src/systemd/util.c:59-60 | `-n` is -ERANGE, after the EINVAL checks have passed. |
| Util.SafeAtouHex | src/systemd/util.c:54 | "0x1F" parses as 31 (base-0 hex). |
| Util.SafeAtouOctal | src/systemd/util.c:54 | "010" parses as 8 (base-0 octal). |
| Util.SafeAtouLeadingSpace | src/systemd/util.c:54-58 | " 42" parses as 42, because strtoul skips leading white space. |
| Util.SafeAtouEmpty | src/systemd/util.c:57-58 | "" is -EINVAL. |
| Util.SafeAtouTrailing | src/systemd/util.c:57-58 | "12a" is -EINVAL. |
| Util.SafeAtouBareHexPrefix | src/systemd/util.c:57-58 | "0x" is -EINVAL. |
| Util.Htobe16 | src/systemd/util.c:88 | The port is stored as two bytes whose big-endian reading is the port. |
| Util.AssignAddressSpec | src/systemd/util.c:75-109 | A failed pton4 returns -errno with no writes. An IPv4 literal writes AF_INET, the port, its address and sizeof(sockaddr_in). Otherwise the text succeeds iff it is at most IF_NAMESIZE-1 bytes and names an interface with a nonzero index. It then writes AF_INET6, the any-address and that index as scope id. It fails with -EINVAL and no writes otherwise. |
| Util.PortOf | src/systemd/util.c:138-143 | safe_atou's error is passed on unchanged. A parsed value succeeds iff it is in 1..65535, and otherwise the error is -EINVAL. |
| Util.ParseBracketedSpec | src/systemd/util.c:119-150 | On failure, a negative code with no port, family or length written. On success, the family AF_INET6, the address and the length are written; the port is written, and lies in 1..65535, only when a `:port` tail is given. A missing `]` is -EINVAL with nothing written. |
| Util.ParseHostPortSpec | src/systemd/util.c:152-162 | A port outside 1..65535 fails with no writes. Otherwise assign_address decides. |
| Util.ParseBareSpec | src/systemd/util.c:164-184 | A bare port is written on the any-address. Anything else goes to assign_address with port 0. Failure writes nothing. |
| Util.ParseSpec | src/systemd/util.c:112-188 | Failure leaves no port, family or length written. Success writes a complete address. An opening `[` without a closing `]` is -EINVAL with nothing written. |
| Util.ParseBracketedRules | src/systemd/util.c:119-150 | For every `[a]tail`: a non-IPv6 `a` is -EINVAL and a failed pton6 is its -errno, both with no writes. A tail not starting with `:` is -EINVAL, and a bad port is PortOf's error. Success iff `a` converts and the tail is empty or `:` plus a valid port. The address is written once `a` converts. On success the port is written iff there is a tail. |
| Util.ParseHostPortForm | src/systemd/util.c:152-162 | For every `h:p` with a colon-free host, the result is PortOf(p)'s error with no writes, or else assign_address(h, port). |
| Util.ParseBareForm | src/systemd/util.c:164-184 | For every text without a colon or a leading `[`: a text safe_atou rejects goes to assign_address with port 0. A number outside 1..65535 is -EINVAL with no writes. A valid port succeeds with AF_INET6 when IPv6 is supported and AF_INET otherwise. |
| Util.SockaddrUnion.AssignAddress | src/systemd/util.c:75-109 | Returns the specified code and applies exactly the specified writes to the union. flowinfo is unchanged. |
| Util.SockaddrUnion.Parse | src/systemd/util.c:112-188 | Returns ParseSpec's code and applies exactly its writes to the union, in place. |
| Util.SockaddrUnion.ParseBracketed | src/systemd/util.c:119-150 | The bracketed branch, applied in place as specified. |
| Util.SockaddrUnion.ParseHostPort | src/systemd/util.c:152-162 | The `host:port` branch, applied in place as specified. |
| Util.SockaddrUnion.ParseBare | src/systemd/util.c:164-184 | The no-colon branch, applied in place as specified. |
| Util.ParseBracketedPort | src/systemd/util.c:119-150 | `[a]:p` with a valid IPv6 literal a and p in 1..65535 gives AF_INET6, port p, a's address and sizeof(sockaddr_in6). |
| Util.ParseBracketedNoPort | src/systemd/util.c:119-150 | `[a]` gives AF_INET6 with no port written. |
| Util.ParseHostPort | src/systemd/util.c:152-162 | `h:p` with an IPv4 literal h gives AF_INET, port p, h's address and sizeof(sockaddr_in). |
| Util.ParseHostPortOutOfRange | src/systemd/util.c:158-159 | `h:0`, and `h:p` for p above 65535, are -EINVAL with nothing written. |
| Util.ParseBarePort | src/systemd/util.c:164-184 | A bare number p in 1..65535 is port p on the IPv6 any-address when IPv6 is supported, and on the IPv4 one otherwise. |
| Daemon.Answer | systemd/_daemon.c:160-163 | A non-negative library code is the bool code ≠ 0. A negative one is set_error's exception. |
| Daemon.IntStoreExact | systemd/_daemon.c:132-136 | Storing a long into an int and comparing back succeeds exactly for values in the C int range. |
| Daemon.FdItem | systemd/_daemon.c:124-136 | An item converts iff it is an int within the C int range. Out of range is OverflowError("Value to large for an integer"). |
| Daemon.FdArray | systemd/_daemon.c:112-140 | A non-sequence is TypeError("object of type '<type>' has no len()"). Otherwise the array holds every item's value in order, and it succeeds iff every item converts. |
| Daemon.FdArrayNone | systemd/_daemon.c:115 | `None` as `fds` is TypeError("object of type 'NoneType' has no len()"). |
| Daemon.FillFds | systemd/_daemon.c:112-140 | The loop filling `arr` computes FdArray. |
| Daemon.StatusArg | systemd/_daemon.c:93 | The "s" format for `status`: a str without NUL, as UTF-8 that decodes back to it; "embedded null character" ValueError; any other object is TypeError("notify() argument 1 must be str, not <type>"), with `None` for None. |
| Daemon.NotifyPlanFrom | systemd/_daemon.c:93-158 | The status's "s" error comes first (StatusArg), `unset_environment` counts by its truth value ("p"), and a negative pid is refused (OverflowError "Bad pid_t"). sd_notify iff pid 0 and no fds. sd_pid_notify iff pid ≠ 0 and no fds. sd_pid_notify_with_fds iff fds are given, with all of them in order. A missing capability is never called. |
| Daemon.NotifyPlanAsWritten | systemd/_daemon.c:93-158 | `notify` as written: an explicit `fds=None` always fails, with TypeError("object of type 'NoneType' has no len()") once status and pid are accepted. The fds call is made iff `fds` is passed. |
| Daemon.NotifyExplicitNoneFdsAsWritten | systemd/_daemon.c:112-117 | As written, `fds=None` fails with TypeError("object of type 'NoneType' has no len()") where omitting fds calls sd_notify. |
| Daemon.GivenFds | systemd/_daemon.c:112-117 | An explicit None counts as no fds, matching the `fds=None` default in the docstring at line 72. |
| Daemon.NotifyPlan | systemd/_daemon.c:76-158 | The call with fds is only made for a non-None fds argument. |
| Daemon.NotifyNoneFdsIsDefault | systemd/_daemon.c:112-158 | Passing `fds=None` behaves exactly as omitting it. |
| Daemon.NotifyOf | systemd/_daemon.c:76-164 | With `fds` taken as written: a refused argument makes no library call. Otherwise the planned call is made and its answer returned. |
| Daemon.Notify | systemd/_daemon.c:76-164 | The method computes NotifyOf. |
| Daemon.ListenFdsWithNames | systemd/_daemon.c:219-273 | Without the capability, ENOSYS. A negative r is set_error's exception. Otherwise a tuple of r + 1 slots: slot 0 is r, slot 1+i is names[i], and slots past the end of names stay empty. |
| Daemon.IsFifoOf | systemd/_daemon.c:282-304 | The library is called iff fd is a C int and path converts, and then with exactly those values. The answer is its sign and nonzero-ness. |
| Daemon.IsSocketInetOf | systemd/_daemon.c:368-386 | The five "iiiii" conversions are made in order, and the first failure is raised with no call. A port outside 0..65535 is ValueError("port must fit into uint16_t") with no call. Otherwise sd_is_socket_inet gets the five values and its answer is returned. |
| Daemon.IsSocketInetPortOverflow | systemd/_daemon.c:372-376 | A port of INT_MAX + 1 is the "i" OverflowError, not the range check's ValueError. |
| Daemon.IsSocketInetPortOutOfRange | systemd/_daemon.c:377-380 | A port of 65536 is ValueError("port must fit into uint16_t"). |
| Daemon.IsSocketInetPortBeyondLong | systemd/_daemon.c:372-374 | A port of 2^64 fails in PyLong_AsLong with "Python int too large to convert to C long". |
| Daemon.IsSocketSockaddrOf | systemd/_daemon.c:401-441 | fd, the address, type, flowinfo and listening are converted in the order the format string gives (fd and the address, then the three optional ints), and the first failure is raised with no call. The converted values then behave as IsSocketSockaddrWith. |
| Daemon.IsSocketSockaddrWith | systemd/_daemon.c:412-441 | An unparsable address is set_error(…, "Cannot parse address"). A nonzero flowinfo is ValueError unless the family is AF_INET6. The library receives the parsed union and flowinfo. A missing capability is ENOSYS. |
| Daemon.IsSocketSockaddrFlowinfoOverflow | systemd/_daemon.c:408-410 | A flowinfo of INT_MAX + 1 is the "i" OverflowError, raised before the address is parsed. |
| Daemon.IsSocketSockaddr | systemd/_daemon.c:401-441 | The method converts the arguments and computes IsSocketSockaddrOf. |
| Daemon.CheckSockaddr | systemd/_daemon.c:412-441 | The parse into a fresh union, the flow label store and the call compute IsSocketSockaddrWith. |
| DaemonPy.ConvertFileobj | src/systemd/daemon.py:16-20 | fileno()'s result if it has one. The object itself on AttributeError. Other errors propagate. |
| DaemonPy.IsFifo | src/systemd/daemon.py:22-24 | A fileno() error passes through, then the "i" error of the descriptor. Otherwise the library is asked about that descriptor and path, and the answer is its sign and nonzero-ness. |
| DaemonPy.FileAndDescriptorAgree | src/systemd/daemon.py:16-24 | A file object and its descriptor give the same is_fifo answer. |
| DaemonPy.Range | src/systemd/daemon.py:72 | `range(lo, hi)` has max(hi - lo, 0) items, item i being lo + i. |
| DaemonPy.ListenFds | src/systemd/daemon.py:56-72 | Exactly `num` consecutive descriptors from LISTEN_FDS_START. A negative count raises set_error's exception. |
| DaemonPy.KeysCount | src/systemd/daemon.py:90-93 | A dictionary whose keys are exactly lo..lo+n-1 has n entries. |
| DaemonPy.ListenFdsWithNames | src/systemd/daemon.py:74-93 | The keys are exactly LISTEN_FDS_START + i for i < composite[0], each mapped to composite[1+i], with composite[0] entries. A short tuple is IndexError and a non-int count is TypeError. |
| Reader.FirstEq | src/systemd/_reader.c:541 | The first `=` of a record, if any. |
| Reader.SplitRecord | src/systemd/_reader.c:536-569 | Splits at the first `=`. The key has no `=`, key + `=` + value is the record, and the value keeps later `=`. No `=` is OSError("journal gave us a field without '='"). |
| Reader.SplitJoin | src/systemd/_reader.c:536-569 | Splitting key + `=` + value, with no `=` in key, returns exactly (key, value). |
| Reader.ExtractPair | src/systemd/_reader.c:536-569 | Key and value of a record, with the key decoded as UTF-8. Split errors come first, then UnicodeDecodeError. |
| Reader.FoldPairsSnoc | src/systemd/_reader.c:615-651 | Folding one more record inserts it into the dictionary built so far. |
| Reader.FoldPairsShape | src/systemd/_reader.c:615-651 | A key is present iff it occurs. Once it is a bare value, twice or more it is the list of all its values in record order. |
| Reader.GetAllOf | src/systemd/_reader.c:605-658 | Succeeds iff every record splits and decodes. Otherwise it fails with the first failing record's error. |
| Reader.BuildEntryDict | src/systemd/_reader.c:611-653 | The FOREACH_DATA loop computes GetAllOf. |
| Reader.GetAllShape | src/systemd/_reader.c:615-651 | The dictionary returned by get_all has the shape FoldPairsShape describes. |
| Reader.UniqueValue | src/systemd/_reader.c:1057-1065 | The bytes after the first `=`. A record without one is ValueError("Invalid field in the journal"). |
| Reader.UniqueSet | src/systemd/_reader.c:1053-1071 | Exactly the set of values after the first `=` of each record, or EINVAL if any record lacks one. |
| Reader.UniqueSetIs | src/systemd/_reader.c:1053-1071 | Any set with those members is the result. |
| Reader.BuildUniqueSet | src/systemd/_reader.c:1045-1074 | The FOREACH_UNIQUE loop computes UniqueSet. |
| Reader.DecodeName | src/systemd/_reader.c:1103 | A field name is returned iff it decodes as UTF-8. |
| Reader.NameSet | src/systemd/_reader.c:1093-1109 | The set of decoded field names, or UnicodeDecodeError if one does not decode. |
| Reader.LongAsFd | src/systemd/_reader.c:171-184 | An int within the C int range is accepted unchanged. A larger one is OverflowError and a non-int is TypeError. |
| Reader.StrvConverter | src/systemd/_reader.c:127-169 | The loop converts every item with the filesystem converter, stopping at the first failure. |
| Reader.IntlistConverter | src/systemd/_reader.c:188-220 | The loop converts every item with long_as_fd, stopping at the first failure. |
| Reader.FlagsArg | src/systemd/_reader.c:248-258 | Absent flags are LOCAL_ONLY. Given flags are read as an "i" and stored as unsigned. |
| Reader.PathsPlan | src/systemd/_reader.c:296-306 | A files list of paths opens by sd_journal_open_files, or is ENOSYS without that capability. |
| Reader.FdsPlan | src/systemd/_reader.c:307-319 | A files list of fds opens by sd_journal_open_files_fd, or is ENOSYS without that capability. |
| Reader.FilesPlan | src/systemd/_reader.c:291-320 | Opening by fds happens only when the first item is an int. A non-sequence is PySequence_GetItem's TypeError("'<type>' object does not support indexing"). |
| Reader.PendingIndexError | src/systemd/_reader.c:292-295 | An IndexError is left pending iff there is no path and `files` is an empty sequence. Its message is the sequence type's own. |
| Reader.PathPlan | src/systemd/_reader.c:266-290 | An int path opens by directory fd. Any other path is converted and opens by directory. |
| Reader.NamespacePlan | src/systemd/_reader.c:320-332 | A namespace opens by sd_journal_open_namespace, or is ENOSYS without that capability. |
| Reader.PlanOpen | src/systemd/_reader.c:260-338 | path and files together are a ValueError, and nothing else is. Precedence is path, then files, then namespace, then the default open. The flags are passed through. ENOSYS only for a missing capability. |
| Reader.Effect | src/systemd/_reader.c:266-340 | `j` changes only when the chosen open call succeeds. |
| Reader.Finish | src/systemd/_reader.c:336-341 | A failed open is set_error's exception, which replaces a pending IndexError. A successful open returns 0, and a pending IndexError then becomes SystemError chained from it. `j` is the open's result. |
| Reader.InitRules | src/systemd/_reader.c:247-341 | __init__ succeeds iff the flags parse, the plan opens a journal and no IndexError is pending. Whenever it opens, `j` is the opened journal, even when an empty `files` then raises SystemError. |
| Reader.InitOf | src/systemd/_reader.c:247-341 | A bad `flags` raises before anything is opened. A success is code 0 with no IndexError pending. The handle changes only when the flags parse, and then only to an open journal. |
| Reader.InitFailures | src/systemd/_reader.c:247-341 | An __init__ that does not open raises and leaves `j` as it was. path with files is ValueError. A missing capability is ENOSYS. |
| Reader.InitEmptyFiles | src/systemd/_reader.c:292-295 | `files=[]` opens the empty journal and raises SystemError chained from IndexError("list index out of range"). |
| Reader.Reader.OpenWith | src/systemd/_reader.c:336-340 | The open call's journal is stored on success. The errno is returned on failure, and `j` is unchanged. |
| Reader.Reader.OpenPath | src/systemd/_reader.c:266-290 | The method performs PathPlan's effect. |
| Reader.Reader.OpenFds | src/systemd/_reader.c:307-319 | The method performs FdsPlan's effect. |
| Reader.Reader.OpenPaths | src/systemd/_reader.c:296-306 | The method performs PathsPlan's effect. |
| Reader.Reader.OpenFilesArg | src/systemd/_reader.c:291-320 | The method performs FilesPlan's effect, including the "does not support indexing" TypeError for a non-sequence. |
| Reader.Reader.OpenNamespaceArg | src/systemd/_reader.c:320-332 | The method performs NamespacePlan's effect. |
| Reader.Reader.OpenFor | src/systemd/_reader.c:260-338 | The method performs PlanOpen's effect. |
| Reader.Reader.Init | src/systemd/_reader.c:247-341 | The method computes InitOf, a pending IndexError included. |
| Reader.Reader.constructor | src/systemd/_reader.c:247 | A new reader has no handle. |
| Reader.Reader.Close | src/systemd/_reader.c:437-444 | `j` becomes None and `closed` holds. Closing twice is harmless. |
| Reader.Reader.Enter | src/systemd/_reader.c:471-477 | `__enter__` returns the reader itself. |
| Reader.Reader.Exit | src/systemd/_reader.c:483-485 | `__exit__` closes. |
| Reader.Dispatch | src/systemd/_reader.c:498-516 | 0 makes no call. 1 is next, -1 is previous, > 1 is next_skip(skip) and < -1 is previous_skip(-skip). |
| Reader.NextOf | src/systemd/_reader.c:492-520 | A skip the "L" format refuses raises AsLongLong's error before the engine is called: TypeError for a non-int, OverflowError("int too big to convert") outside int64. `next(0)` is ValueError. A closed reader gives OSError(EINVAL). Only the position changes. |
| Reader.NextMoves | src/systemd/_reader.c:492-520 | On an open journal and for a skip of size at most INT_MAX, `next(skip)` moves skip entries, clamped to the first and last entry, and returns whether it moved. |
| Reader.NextTooFar | src/systemd/_reader.c:505-518 | A skip the "L" format accepts but of size above INT_MAX reaches the engine, which refuses it with -ERANGE: OSError(ERANGE), and the reader stays put. |
| Reader.NextWhenClosed | src/systemd/_reader.c:505-518 | A closed reader refuses to move, with OSError(EINVAL). |
| Reader.PreviousArgAsWritten | src/systemd/_reader.c:533 | The int64 negation maps INT64_MIN to itself. |
| Reader.PreviousAsWritten | src/systemd/_reader.c:527-534 | previous as written: an "L" conversion error (AsLongLong's TypeError or OverflowError("int too big to convert")) comes back unchanged. |
| Reader.PreviousAsWrittenReachesEngine | src/systemd/_reader.c:527-534 | As written, `previous(INT64_MIN)` passes the wrapped skip on and ends in the engine's OSError(ERANGE); the intended reading raises OverflowError("int too big to convert") before any call. |
| Reader.PreviousOf | src/systemd/_reader.c:527-534 | An "L" conversion error is AsLongLong's. Otherwise `previous(skip)` is exactly `_next(-skip)`. |
| Reader.PreviousMoves | src/systemd/_reader.c:527-534 | For a skip of size at most INT_MAX, previous moves back where next moves on. INT64_MIN is OverflowError("int too big to convert") and the handle is unchanged. |
| Reader.PreviousAgrees | src/systemd/_reader.c:527-534 | Apart from INT64_MIN, the code as written equals PreviousOf. |
| Reader.Reader.Next | src/systemd/_reader.c:492-520 | The method computes NextOf on `j`, converting `skip` with the "L" format. |
| Reader.Reader.Previous | src/systemd/_reader.c:527-534 | The method computes PreviousAsWritten on `j`: the "L" conversion, then `_next` with the int64_t negation of the skip. |
| Reader.Reader.GetAll | src/systemd/_reader.c:605-658 | The method computes GetAllOf over the current entry. |
| Reader.Realtime | src/systemd/_reader.c:666-679 | The current entry's realtime stamp. EINVAL when closed and EADDRNOTAVAIL with no current entry. |
| Reader.Monotonic | src/systemd/_reader.c:687-715 | The current entry's (monotonic stamp, boot id). EINVAL when closed and EADDRNOTAVAIL with no current entry. |
| Reader.Cursor | src/systemd/_reader.c:987-999 | EINVAL when closed and EADDRNOTAVAIL with no current entry. Otherwise it succeeds iff the cursor decodes as UTF-8, and fails with UnicodeDecodeError if not. |
| Reader.Timeout | src/systemd/_reader.c:401-414 | None iff the engine reports UINT64_MAX, otherwise the value. EINVAL when closed. |
| Reader.TimeoutMs | src/systemd/_reader.c:421-430 | absolute_timeout as written of the engine's timeout: -1 iff get_timeout is None, and 0 for a finite deadline already past. EINVAL when closed. |
| Reader.TimeoutMsAgrees | src/systemd/_reader.c:421-430 | Within INT_MAX milliseconds of now, get_timeout_ms is the intended ceiling in milliseconds. |
| Reader.EntryValue | src/systemd/_reader.c:575-600 | An absent field (ENOENT) is KeyError with the field as a str, and only then. An invalid field is ValueError("field name is not valid"). The result is the value of the record `field=value`. |
| Reader.GetFindsValue | src/systemd/_reader.c:575-600 | A record `field=value` gives get(field) == value. |
| Reader.RecordOfField | src/systemd/_reader.c:596 | For a valid field, the record splits into exactly field and the rest. |
| Reader.AddMatchOf | src/systemd/_reader.c:723-740 | A match that is neither str nor bytes is TypeError("a bytes-like object is required, not '<type>'"). Above INT_MAX bytes is ENOBUFS. An invalid match is ValueError("Invalid match"). Success appends the match and nothing else changes. |
| Reader.MatchBytes | src/systemd/_reader.c:727 | "s#" takes str as its UTF-8 bytes and bytes as they are. |
| Reader.Reader.AddMatch | src/systemd/_reader.c:723-740 | The method computes AddMatchOf on `j`, with the same bytes-like TypeError. |
| Reader.QueryUniqueOf | src/systemd/_reader.c:1027-1075 | An embedded NUL is ValueError. A closed reader or an invalid field is ValueError("Invalid field name"). Otherwise the result is the set of unique values. |
| Reader.Reader.QueryUnique | src/systemd/_reader.c:1027-1075 | The method computes QueryUniqueOf. |
| Reader.EnumerateFieldsOf | src/systemd/_reader.c:1081-1117 | ENOSYS without the capability. On a closed reader, ValueError("Field enumeration failed"). Otherwise the enumeration restarts, all names are returned, and the cursor ends at the end. |
| Reader.Reader.EnumerateFields | src/systemd/_reader.c:1081-1117 | The restart-then-loop-until-0 method computes EnumerateFieldsOf. |
| Reader.CatalogText | src/systemd/_reader.c:1168-1200 | If the catalog lookup gives ENOENT, a present MESSAGE_ID gives KeyError with the text after `MESSAGE_ID=` (a str when it decodes), and an absent one gives IndexError("no MESSAGE_ID field"). A found catalog entry is returned decoded. |
| Reader.SetDataThresholdOf | src/systemd/_reader.c:1247-1262 | Deletion is AttributeError and a non-int is TypeError. A closed reader is EINVAL. Otherwise the threshold becomes the value mod 2^64. |
| Reader.Reader.SetDataThreshold | src/systemd/_reader.c:1247-1262 | The method computes SetDataThresholdOf. |
| JournalPy.MapPriority | systemd/journal.py:604-621 | The result is a syslog priority between LOG_ALERT and LOG_DEBUG, never LOG_NOTICE. |
| JournalPy.MapPriorityIsCeiling | systemd/journal.py:604-621 | map_priority is the priority of the first standard level at or above levelno, and LOG_ALERT above all of them. |
| JournalPy.MapPriorityMonotone | systemd/journal.py:604-621 | A higher level number never gives a less severe priority. |
| JournalPy.MapPriorityStandardLevels | systemd/test/test_journal.py:61-79 | The standard levels and their neighbours map as the tests list. |
| JournalPy.ValidFieldName | systemd/journal.py:110-114 | True iff every character is in A–Z, 0–9 or `_`. |
| JournalPy.ValidFieldNameIsEngineField | systemd/journal.py:110-114 | For non-empty names of at most 64 characters that do not start with a digit, `_valid_field_name` agrees with the engine's field rule. |
| JournalPy.MakeLine | systemd/journal.py:403-409 | Bytes values give a bytes line. Everything else gives a str line. |
| JournalPy.MakeLineSplits | systemd/journal.py:403-409 | The line splits back at its first `=` into the field and the value's wire bytes. |
| JournalPy.EncodeLine | systemd/journal.py:407 | UTF-8 of `field=rest` is UTF-8(field) + `=` + UTF-8(rest). |
| JournalPy.ChainFor | systemd/journal.py:175-179 | Lookup finds the user converter first, then the default one. |
| JournalPy.ChainGet | systemd/journal.py:193 | A converter is found iff some map has the key. |
| JournalPy.DecodeBytes | systemd/journal.py:193 | bytes.decode decodes valid UTF-8 and raises UnicodeDecodeError otherwise. A value that is not bytes is TypeError("descriptor 'decode' for 'bytes' objects doesn't apply to a '<type>' object"). |
| JournalPy.ConvertWith | systemd/journal.py:185-198 | The converter's result, except that a ValueError gives back the original value. No ValueError escapes. |
| JournalPy.ConvertDecodes | systemd/journal.py:185-198 | With no converter, valid UTF-8 bytes become the str. |
| JournalPy.ConvertKeepsUndecodable | systemd/test/test_journal.py:270-278 | With no converter, undecodable bytes come back unchanged. |
| JournalPy.ConvertValue | systemd/journal.py:203-207 | A list stays a list of the same length, converted element by element. A scalar is converted directly. |
| JournalPy.JournalReader.ConvertEntry | systemd/journal.py:200-208 | The loop keeps every key and converts every value. |
| JournalPy.PyEntry | systemd/journal.py:259 | The dict returned by `_get_all` has the same keys. A single value is bytes and a multi value is a list of bytes. |
| JournalPy.Stamp | systemd/journal.py:261-263 | `__REALTIME_TIMESTAMP`, `__MONOTONIC_TIMESTAMP` (the monotonic stamp and boot id) and `__CURSOR` are added. All other keys are kept. A realtime error comes first, then a cursor error. |
| JournalPy.Negate | systemd/journal.py:281 | `-skip` for an int skip. Anything else is TypeError("bad operand type for unary -: '<type>'"). |
| JournalPy.EndOfIteration | systemd/journal.py:224-228 | An empty dict becomes StopIteration. A non-empty result passes. |
| JournalPy.GetNextKeys | systemd/journal.py:246-265 | A non-empty get_next result has exactly the entry's keys plus the three `__` keys. |
| JournalPy.ClosedReaderGetNext | systemd/test/test_journal.py:211-218 | On a closed reader, get_next and `next()` raise OSError. |
| JournalPy.JournalReader.GetNext | systemd/journal.py:246-265 | The handle moves as `_next(skip)`. The result is {} or the stamped, converted entry. |
| JournalPy.JournalReader.GetPrevious | systemd/journal.py:267-281 | get_previous(s) is get_next(-s). |
| JournalPy.JournalReader.IterNext | systemd/journal.py:217-228 | `__next__` is get_next() with {} turned into StopIteration. |
| JournalPy.AddMatchesOf | systemd/journal.py:243-244 | Matches are added one by one, stopping at the first error. The handle stays open iff it was. |
| JournalPy.AddMatchesAppend | systemd/journal.py:243-244 | Adding xs + ys is adding xs, then ys if xs succeeded. |
| JournalPy.AddMatchesAllValid | systemd/journal.py:243-244 | Valid lines are appended to the matches in order. |
| JournalPy.MatchLines | systemd/journal.py:241-242 | The positional matches come first, then one `_make_line` per keyword, in order. |
| JournalPy.JournalReader.AddMatch | systemd/journal.py:233-244 | The method computes AddMatchesOf on those lines. |
| JournalPy.PriorityLines | systemd/journal.py:348-349 | `PRIORITY=0` … `PRIORITY=level`. |
| JournalPy.PriorityLineValid | systemd/journal.py:349 | Each priority line is a valid match with the expected bytes. |
| JournalPy.PriorityMatches | systemd/journal.py:347-349 | The level + 1 match byte strings, in order. |
| JournalPy.PriorityLinesAdded | systemd/journal.py:347-349 | On an open reader, adding `PRIORITY=0..l` succeeds and appends exactly those level + 1 matches in order. |
| JournalPy.LogLevelOf | systemd/journal.py:344-351 | A non-int level is the comparison TypeError. An int outside 0..7 is ValueError and adds nothing. 0 ≤ l ≤ 7 on an open reader succeeds and appends exactly `PRIORITY=0..l` in order. The handle stays open or closed. |
| JournalPy.LogLevelOtherTypes | systemd/journal.py:346 | A bool level behaves as 0 or 1. A level that is not an int is the comparison TypeError and adds nothing. |
| JournalPy.JournalReader.LogLevel | systemd/journal.py:344-351 | The method computes LogLevelOf for any Python level. |
| JournalPy.JournalReader.AddPriorities | systemd/journal.py:347-349 | The `range(level+1)` loop adds the priority matches one at a time and computes AddMatchesOf over `PRIORITY=0..level`, stopping at the first error. |
| JournalPy.FlagsFor | systemd/journal.py:167-172 | Flags default to LOCAL_ONLY without path and files, and to 0 otherwise. |
| JournalPy.FlagsForDefault | systemd/journal.py:167-170 | The Python default agrees with the C default. |
| JournalPy.JournalReader.Init | systemd/journal.py:143-183 | The binding opens with the defaulted flags. On success the converter chain is user, then defaults. |
| JournalPy.SendHead | systemd/journal.py:441-445 | `MESSAGE=` first, then `MESSAGE_ID=` when given. |
| JournalPy.CodeLines | systemd/journal.py:447-454 | All three code fields absent gives the caller's three. Otherwise one line per given field, in the order CODE_FILE, CODE_LINE, CODE_FUNC. |
| JournalPy.AppendCodeLines | systemd/journal.py:447-454 | The appending code adds exactly CodeLines after the lines already there. |
| JournalPy.SendArgsOf | systemd/journal.py:441-456 | A non-str MESSAGE is TypeError('can only concatenate str (not "<type>") to str'). The list starts with `MESSAGE=` and then `MESSAGE_ID=`. |
| JournalPy.JournalReader.constructor | systemd/journal.py:143 | A new reader has no handle and no converters. |
| JournalPy.SendArgs | systemd/journal.py:441-456 | The appending code computes SendArgsOf, the concatenation TypeError included. |
| JournalPy.SendArgsKeywordsLast | systemd/journal.py:441-456 | The keyword lines come last, after the head and the code lines. |
| JournalPy.FirstInvalid | systemd/journal.py:556-558 | The first keyword name that fails validation. |
| JournalPy.SyslogIdentifierValid | systemd/journal.py:559-560 | The default keyword is itself valid. |
| JournalPy.KeywordMap | systemd/journal.py:553 | `**kwargs` as a dict, keyed by exactly the keyword names. |
| JournalPy.HandlerOf | systemd/journal.py:553-563 | The handler keeps every keyword but SENDER_FUNCTION, which becomes the sender, and adds SYSLOG_IDENTIFIER = argv[0] when it was not given. |
| JournalPy.CheckLevel | systemd/journal.py:553-554 | logging's level check run by `super().__init__(level)`: an int or bool is the level, a str must be one of logging's level names (ValueError "Unknown level: '<name>'" otherwise), and any other object is TypeError("Level not an integer or a valid string: …"). |
| JournalPy.HandlerInit | systemd/journal.py:553-563 | The level check first: its error is raised before the keywords are looked at, and the handler's level is its result. Then ValueError("Invalid field name: " + first bad name) iff some name is invalid. Otherwise the extra keys are exactly the keyword names plus SYSLOG_IDENTIFIER minus SENDER_FUNCTION, SYSLOG_IDENTIFIER defaults to argv[0], and SENDER_FUNCTION is the sender. |
| JournalPy.HandlerInitLevelFirst | systemd/journal.py:553-558 | The level name INFO gives level 20, and an unknown level name is refused even when a keyword name is invalid too. |
| JournalPy.HandlerInitDefault | systemd/journal.py:553-563 | No keywords give only SYSLOG_IDENTIFIER = argv[0] and no sender. |
| JournalPy.HandlerInitSender | systemd/journal.py:553-563 | SENDER_FUNCTION alone becomes the sender and is not kept as a field. |
| Version.RemoveV | generate_version.py:19 | Exactly one leading literal `v` is removed. |
| Version.Describe | generate_version.py:19 | Strips after removing `v`, so ` v1` keeps its `v`. |
| Version.ParseInt | generate_version.py:26 | `int()` either fails with ValueError or gives a value from a non-empty stripped text. |
| Version.ParseIntText | generate_version.py:26 | `int(str(i)) == i`. |
| Version.NextVersion | generate_version.py:27 | Every component is kept except the last, which is incremented. |
| Version.BumpLast | generate_version.py:27 | The pop/append computes NextVersion. |
| Version.DateStamp | generate_version.py:32 | `%Y%m%d` is an 8-digit YYYYMMDD for years from 1000. |
| Version.GitDescribeVersion | generate_version.py:18-34 | With no `-`, the stripped text is returned. A dev version needs three parts. Errors are ValueErrors. |
| Version.VersionFromGitDescribe | generate_version.py:18-34 | The script's steps compute GitDescribeVersion, with the timestamp defaulting to now. |
| Version.DescribeSplit | generate_version.py:20 | maxsplit=2 keeps every further `-` in the commit part. |
| Version.ParseJoinInts | generate_version.py:26-34 | Parsing the dotted text of the components gives them back. |
| Version.DevVersionOfTag | generate_version.py:18-34 | `vX.Y-N-g…` gives X.(Y+1).devN+g….dYYYYMMDD. |
| Version.DevVersionOfPieces | generate_version.py:20-34 | For any description that splits in three, the result is the incremented version plus the trailer. |
| Version.OneDashFails | generate_version.py:30 | A suffix with one part is the unpacking ValueError. |
| Version.VersionFromArchivalTxt | generate_version.py:42-46 | `describe-name` is required. An explicit timestamp overrides `node-date`. Otherwise `node-date` is parsed. |
| Constants.ReadLines | update-constants.py:26 | `readlines` keeps each line's `\n`. The lines concatenate back to the text. |
| Constants.TrimNewline | update-constants.py:30-31 | The trailing `\n`, if any, is removed. |
| Constants.DefineLines | update-constants.py:25-33 | Only StopIteration can escape. At most one output per input line, each collapsed. |
| Constants.ExtractDefineLines | update-constants.py:25-33 | The iterator loop computes DefineLines. |
| Constants.AsWrittenNeverJoins | update-constants.py:29-32 | As written, lines ending in `\n` are never joined: the result is the filtered, collapsed lines. |
| Constants.ContinuedJoins | update-constants.py:30-32 | Corrected, a kept line ending in a backslash is joined with the next line before collapsing. |
| Constants.ContinuedJoinsLast | update-constants.py:30-32 | The same for a final pair of lines. |
| Constants.ContinuationLostAsWritten | update-constants.py:29-32 | As written, a definition continued on the next line yields `… \` and no symbol. |
| Constants.ContinuationJoinedCorrected | update-constants.py:30-32 | Corrected, it yields the one-line definition. |
| Constants.ContinuationKeptCorrected | update-constants.py:29-32 | Corrected, its symbol is found. |
| Constants.ExtractSymbol | update-constants.py:36-48 | The result is '' or an `SD_MESSAGE_[A-Z0-9_]+` name from a line starting `#define` plus white space. |
| Constants.ExtractSymbolAt | update-constants.py:16 | The name is returned iff white space and a word character follow it. |
| Constants.ExtractSymbolOf | update-constants.py:36-48 | `#define NAME value` gives NAME. |
| Constants.ExtractSymbolNeedsValue | update-constants.py:36-48 | Without a following word, the result is ''. |
| Constants.CollapseDefineLine | update-constants.py:32 | Collapsing normalises the runs of white space of a definition line. |
| Constants.BuildLine | update-constants.py:51-52 | The line holds the name at its quoted position, with a fixed overhead of 22 characters. |
| Constants.BuildLineInjective | update-constants.py:51-52 | Different names give different lines. |
| Constants.BuildLineOneLine | update-constants.py:52 | A generated line holds no newline. |
| Constants.Insert | update-constants.py:70 | Insertion keeps a strictly sorted sequence, with members old ∪ {x}. |
| Constants.SortedSet | update-constants.py:70 | `sorted(frozenset(…))` is strictly sorted with the same members. |
| Constants.SortedListingUnique | update-constants.py:70 | Two strictly sorted sequences with the same members are equal. |
| Constants.Symbols | update-constants.py:70 | Exactly the non-empty extracted names, sorted, without duplicates. |
| Constants.SymbolsOfOne | update-constants.py:70 | One line gives its symbol, or none. |
| Constants.ConvertedLines | update-constants.py:72 | One built line per symbol, in order. |
| Constants.GenerateConstants | update-constants.py:68-75 | The headers are read inside a generator expression, so a StopIteration from either leaves main as RuntimeError("generator raised StopIteration") (PEP 479); no other exception escapes. It succeeds iff both headers' line extraction does. |
| Constants.GeneratedCutOffHeader | update-constants.py:30-31 | A header whose last line is a kept definition ending in a backslash with no newline makes main raise RuntimeError("generator raised StopIteration"). |
| Constants.CutOffStops | update-constants.py:30-31 | On such a header, extract_define_lines raises StopIteration. |
| Constants.GeneratedOnePerSymbol | update-constants.py:68-75 | For the code as written and as corrected, the file ends in `\n` and splits into exactly one built line per symbol, in sorted order. |
| Constants.GeneratedAsWritten | update-constants.py:25-75 | As written, with every line ending in `\n`, the output is the built lines of the symbols of the filtered, collapsed lines, and no continuation is joined. |

## Left out

- Engine and library calls: the libsystemd journal engine is the simple model `Engine`, not the real library. `sd_notify*`, `sd_is_*` and `sd_listen_fds*` are parameters, and so are `inet_pton`, `if_nametoindex` and `access`. No library source is part of this model. The engine model refuses a skip count above INT_MAX with -ERANGE, as libsystemd's skip calls do; its other argument checks are not modelled.
- Python runtime: GIL release, reference counting and C memory management have no sequential meaning here, and allocation failure (PyMem_NEW, PySet_New, new0, strdup returning NULL) is not modelled.
- Reader.Reader.GetAll: the order in which a failing entry reports its error follows the record order. Errors from PyDict/PyList allocation are not modelled.
- JournalPy.JournalReader.ConvertEntry: stated through a ghost predicate over the whole result. The order in which a failing conversion is found among the dictionary's keys is not modelled, because Python dict order is insertion order and the model's map has none.
- JournalPy: DEFAULT_CONVERTERS is a parameter. Converters are opaque functions. The datetime, UUID and float converters, `wait`, `seek_realtime`, `seek_monotonic`, `stream()`, `JournalHandler.emit` and the traceback lookup in `send` (the caller frame is a parameter) are not modelled. `str()` of a non-str value in `_make_line` is a parameter. `MESSAGE_ID.hex` for UUID objects is not modelled; MESSAGE_ID is a str.
- Python `Reader.query_unique`, `messageid_match`, `this_boot` and `this_machine` are not modelled. They only forward to the binding and the converters.
- Reader.SetDataThresholdOf: a value outside the C long range makes long_AsLong raise OverflowError, and the threshold is then set to `(size_t) -1` as the code does. The setter then returns 0 with that error pending; the model raises it at once, and does not model where the interpreter later reports it.
- Daemon.ListenFdsWithNames: a NULL `names` array with r > 0 (undefined behaviour in C) is modelled as an empty name list. Name decoding failures are not modelled.
- Daemon: `booted`, `listen_fds` in C, `is_socket`, `is_socket_unix` and `is_mq` are not modelled, apart from is_fifo. They are argument passing only. The Python < 3.3 argument-parsing branches are not modelled.
- Util.SockaddrUnion: the union's IPv4 and IPv6 views are separate fields; the byte overlap of `sin_addr` and `sin6_flowinfo` is not modelled. The IPv4 address that `inet_pton` may write before failing is not modelled.
- Version.ParseInt: `int()` accepts ASCII digits with an optional sign and surrounding white space. Underscores and non-ASCII digits are not modelled, and the ValueError message does not include the repr of the text.
- Version.DateStamp: `%Y` for years below 1000 is not zero-padded in the model, so the 8-digit promise is stated only from year 1000.
- Version: `git_describe`, `read_git_archival_txt` and `main` are not modelled; they are subprocess, environment and file I/O.
- Constants: line splitting covers `\n` only (no universal newlines). `\s` is the white space of Python's `str.isspace`. `\w` is the ASCII class of letters, digits and `_`; non-ASCII word characters are not modelled. argparse, the file reads and writes and `update_docs` are not modelled.
- Reader.PlanOpen: `Reader_init` only rejects `path` together with `files`. A namespace given with a path or files is ignored, as the code does, though a mutual exclusion of all three could be read into the documentation.
- Base.AsLong: the TypeError text for a non-int is the wording of Python 3.10 and later; Python 3.8 and 3.9 say "an integer is required (got type …)". Objects with their own `__index__` are not modelled.
- PyUtil.FsConvert: a str is encoded as strict UTF-8. A filesystem encoding other than UTF-8 and the `surrogateescape` handler for lone surrogates are not modelled. Any path-like object is modelled by the str or bytes its `__fspath__` returns; a `__fspath__` that raises is not modelled.
- Util.Strtoul: the `0b` binary prefix that glibc 2.38 and later accept for base 0 with C2x features is not modelled; `0b1` is read as the number 0 followed by `b`.
- Reader.FilesPlan: `Py` has no mapping type. A mapping `files`, such as a dict, gets PySequence_GetItem's other text, "<type> is not a sequence", and the model does not produce it.
- JournalPy.Negate: an object with its own `__neg__` is not modelled; every non-int is the unary-minus TypeError.
- JournalPy.SendArgsOf: a MESSAGE object with its own `__radd__` is not modelled; every non-str MESSAGE is the concatenation TypeError.
- JournalPy.LogLevelOf: only int and bool levels are compared. A float level and an object with its own comparison operators are not modelled; every other object is the comparison TypeError.
- Reader.CatalogText: the KeyError argument is a str when the MESSAGE_ID decodes as UTF-8 and the raw bytes otherwise. The model does not reproduce the U+FFFD replacement that `PyErr_Format` would make, nor the truncation of `%.*s` at an embedded NUL.
- Daemon.IsSocketSockaddrOf: the address argument is a Python str. A non-str address, which the "s" format refuses with TypeError, is not modelled.
- Daemon.NotifyOf: the module-level `notify` is modelled with `fds` as written. The corrected reading, `Daemon.NotifyPlan`, is proved separately and is not what `notify` does.
- Daemon.NotifyPlanFrom: `unset_environment` is taken by its truth value, so an object whose `__bool__` or `__len__` raises, which makes the "p" format fail with that exception, is not modelled. The same holds for `Daemon.NotifyOf` and `Daemon.Notify`.
- JournalPy.CheckLevel: logging formats the level with `%r`. The model writes an unknown level name between single quotes, which is its repr only when it holds no quote, backslash or unprintable character. For the TypeError only the fixed start of the message is stated; the repr of an arbitrary object is not modelled. A level stored from a bool is kept as its int value.

## Findings

| source | as written | input that shows it | evidently intended | confidence | as-written member | corrected member |
|---|---|---|---|---|---|---|
| src/systemd/pyutil.c:22 | The uint64 millisecond count is cast to `int`. `t - n + 999` is computed in uint64. | A deadline 2^31·1000 µs after now gives INT_MIN, a negative poll timeout. t = UINT64_MAX-1 wraps to 0. | The remaining time rounded up to milliseconds, never negative for a finite deadline. | not executed | PyUtil.AbsoluteTimeoutAsWrittenGoesNegative | PyUtil.AbsoluteTimeout |
| src/systemd/_reader.c:527-534 | `previous` passes `-skip` computed in int64_t. | `previous(-2**63)`: the binding never raises the OverflowError an out-of-range negation gets, and negates INT64_MIN with undefined behaviour. With a compiler that wraps, the skip stays INT64_MIN and reaches the engine, which in this model refuses its size with OSError(ERANGE). | `previous(skip)` is `_next(-skip)`, and a negation outside int64 is refused with OverflowError. | not executed | Reader.PreviousAsWrittenReachesEngine | Reader.PreviousOf |
| systemd/_daemon.c:112-117 | Any non-NULL `fds`, None included, goes to PySequence_Length. | `notify("READY=1", fds=None)` raises TypeError, though the signature documents `fds=None` as the default. | An explicit None behaves as an omitted `fds`. | not executed | Daemon.NotifyExplicitNoneFdsAsWritten | Daemon.NotifyNoneFdsIsDefault |
| update-constants.py:30-31 | `readlines()` keeps `\n`, so `line.endswith('\\')` is false for every line but an unterminated last one. | `#define SD_MESSAGE_X \` followed by `        SD_ID128_MAKE(…)`: the kept line is `#define SD_MESSAGE_X \` and SD_MESSAGE_X is not extracted. | A trailing backslash joins the next line, and the symbol is found. | not executed | Constants.ContinuationLostAsWritten | Constants.ContinuationKeptCorrected |
