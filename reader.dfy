/**
 * The journal reader binding, src/systemd/_reader.c: the `_Reader` type,
 * whose only state is the engine handle `j` (NULL once closed), and the
 * logic it adds over the engine: splitting records at their first `=`,
 * folding an entry into a dictionary, the skip dispatch of `_next`, the
 * choice of open call, error classification and the unique-value and
 * field-name sets.
 */
module Reader {
  import opened Base
  import Utf8
  import opened PyUtil
  import opened Engine

  // ------------------------------------------------------------ extract

  /** memchr for `=`: the index of the first `=` in a record. */
  function FirstEq(rec: Bytes): (r: Option<nat>)
    ensures r.Some? ==> r.value < |rec| && rec[r.value] == EQ && EQ !in rec[..r.value]
    ensures r.None? <==> EQ !in rec
  {
    if rec == [] then None
    else if rec[0] == EQ then Some(0)
    else match FirstEq(rec[1..])
      case None => None
      case Some(i) =>
        assert rec[..i + 1] == [rec[0]] + rec[1..][..i];
        Some(i + 1)
  }

  /**
   * extract: a record split at its first `=` into the bytes before it and
   * every byte after it; a record without `=` is an OSError.
   */
  function SplitRecord(rec: Bytes): (r: Result<(Bytes, Bytes), Exc>)
    ensures r.Ok? <==> EQ in rec
    ensures r.Ok? ==> rec == r.value.0 + [EQ] + r.value.1 && EQ !in r.value.0
    ensures r.Err? ==> r.error == OSErrorMessage("journal gave us a field without '='")
  {
    match FirstEq(rec)
    case None => Err(OSErrorMessage("journal gave us a field without '='"))
    case Some(i) =>
      assert rec == rec[..i] + [EQ] + rec[i + 1..];
      Ok((rec[..i], rec[i + 1..]))
  }

  /** Splitting a record built from a name without `=`, `=` and any value gives both back. */
  lemma SplitJoin(key: Bytes, value: Bytes)
    requires EQ !in key
    ensures SplitRecord(key + [EQ] + value) == Ok((key, value))
  {
    var rec := key + [EQ] + value;
    assert rec[|key|] == EQ;
    assert rec[..|key|] == key;
    assert rec[|key| + 1..] == value;
  }

  /** extract with a key: the name is decoded as strict UTF-8. */
  function ExtractPair(rec: Bytes): (r: Result<(string, Bytes), Exc>)
    ensures r.Ok? <==> SplitRecord(rec).Ok? && Utf8.Decode(SplitRecord(rec).value.0).Some?
    ensures r.Ok? ==>
      (Utf8.Decode(SplitRecord(rec).value.0) == Some(r.value.0) && r.value.1 == SplitRecord(rec).value.1)
    ensures SplitRecord(rec).Err? ==> r == Err(SplitRecord(rec).error)
    ensures SplitRecord(rec).Ok? && r.Err? ==> r.error == UnicodeDecodeError
  {
    match SplitRecord(rec)
    case Err(e) => Err(e)
    case Ok((k, v)) =>
      match Utf8.Decode(k)
      case None => Err(UnicodeDecodeError)
      case Some(key) => Ok((key, v))
  }

  // ------------------------------------------------------------ get_all

  /** A dictionary value: the bytes of a field seen once, the list of a repeated one. */
  datatype FieldValue = Single(v: Bytes) | Multi(vs: seq<Bytes>)

  type EntryDict = map<string, FieldValue>

  /** One dictionary update of the FOREACH_DATA loop. */
  function Insert(d: EntryDict, k: string, v: Bytes): EntryDict
  {
    if k !in d then d[k := Single(v)]
    else match d[k]
      case Single(first) => d[k := Multi([first, v])]
      case Multi(vs) => d[k := Multi(vs + [v])]
  }

  /** The dictionary the loop builds from the name/value pairs, in record order. */
  function FoldPairs(ps: seq<(string, Bytes)>): EntryDict
  {
    if ps == [] then map[] else Insert(FoldPairs(ps[..|ps| - 1]), ps[|ps| - 1].0, ps[|ps| - 1].1)
  }

  /** Folding one more pair is one more dictionary update. */
  lemma FoldPairsSnoc(ps: seq<(string, Bytes)>, p: (string, Bytes))
    ensures FoldPairs(ps + [p]) == Insert(FoldPairs(ps), p.0, p.1)
  {
    assert (ps + [p])[..|ps|] == ps;
  }

  /** The values of the pairs named `k`, in order. */
  function ValuesOf(ps: seq<(string, Bytes)>, k: string): (vs: seq<Bytes>)
    ensures |vs| <= |ps|
  {
    if ps == [] then []
    else ValuesOf(ps[..|ps| - 1], k) + (if ps[|ps| - 1].0 == k then [ps[|ps| - 1].1] else [])
  }

  /** How Python shows the values of one field: bare when single, a list otherwise. */
  function Shape(vs: seq<Bytes>): FieldValue
    requires |vs| >= 1
  {
    if |vs| == 1 then Single(vs[0]) else Multi(vs)
  }

  /**
   * get_all's dictionary: a name holds its value when it occurs once, and
   * the list of all its values in record order when it occurs more often.
   */
  lemma {:induction false} FoldPairsShape(ps: seq<(string, Bytes)>, k: string)
    ensures k in FoldPairs(ps) <==> |ValuesOf(ps, k)| >= 1
    ensures k in FoldPairs(ps) ==> FoldPairs(ps)[k] == Shape(ValuesOf(ps, k))
    ensures k in FoldPairs(ps) && FoldPairs(ps)[k].Multi? ==> |FoldPairs(ps)[k].vs| >= 2
  {
    if ps != [] {
      var init := ps[..|ps| - 1];
      FoldPairsShape(init, k);
    }
  }

  /** The dictionary of an entry's records, or the exception of the first record that fails. */
  function GetAllOf(rs: seq<Bytes>): (r: Result<EntryDict, Exc>)
    ensures r.Ok? <==> forall i :: 0 <= i < |rs| ==> ExtractPair(rs[i]).Ok?
    ensures r.Err? ==> r.error == ExtractPair(rs[FirstError(rs, ExtractPair)]).error
  {
    match Collect(rs, ExtractPair)
    case Err(e) => Err(e)
    case Ok(ps) => Ok(FoldPairs(ps))
  }

  /** The first record that fails decides the result. */
  lemma GetAllStops(rs: seq<Bytes>, i: nat)
    requires i < |rs| && ExtractPair(rs[i]).Err?
    requires forall k :: 0 <= k < i ==> ExtractPair(rs[k]).Ok?
    ensures GetAllOf(rs) == Err(ExtractPair(rs[i]).error)
  {
    CollectStops(rs, ExtractPair, i);
  }

  /** When every record decodes, the dictionary folds all the pairs. */
  lemma GetAllDone(rs: seq<Bytes>, ps: seq<(string, Bytes)>)
    requires |ps| == |rs| && forall k :: 0 <= k < |rs| ==> ExtractPair(rs[k]) == Ok(ps[k])
    ensures GetAllOf(rs) == Ok(FoldPairs(ps))
  {
    CollectAll(rs, ExtractPair, ps);
  }

  /** The FOREACH_DATA loop of Reader_get_all over the records of the current entry. */
  method BuildEntryDict(rs: seq<Bytes>) returns (r: Result<EntryDict, Exc>)
    ensures r == GetAllOf(rs)
  {
    var dict: EntryDict := map[];
    ghost var ps: seq<(string, Bytes)> := [];
    var i := 0;
    while i < |rs|
      invariant 0 <= i <= |rs|
      invariant |ps| == i && forall k :: 0 <= k < i ==> ExtractPair(rs[k]) == Ok(ps[k])
      invariant dict == FoldPairs(ps)
    {
      var kv := ExtractPair(rs[i]);
      if kv.Err? {
        GetAllStops(rs, i);
        return Err(kv.error);
      }
      var (key, value) := kv.value;
      dict := Insert(dict, key, value);
      FoldPairsSnoc(ps, kv.value);
      ps := ps + [kv.value];
      i := i + 1;
    }
    GetAllDone(rs, ps);
    return Ok(dict);
  }

  /** Every name of the entry maps to the shape of that name's values in record order. */
  lemma GetAllShape(rs: seq<Bytes>, k: string)
    requires GetAllOf(rs).Ok?
    ensures var ps := Collect(rs, ExtractPair).value;
      (k in GetAllOf(rs).value <==> |ValuesOf(ps, k)| >= 1)
      && (k in GetAllOf(rs).value ==> GetAllOf(rs).value[k] == Shape(ValuesOf(ps, k)))
  {
    FoldPairsShape(Collect(rs, ExtractPair).value, k);
  }

  // ------------------------------------------------------- query_unique

  /** A unique record's value; one without `=` is reported as an invalid field. */
  function UniqueValue(rec: Bytes): (r: Result<Bytes, Exc>)
    ensures r.Ok? <==> EQ in rec
    ensures r.Ok? ==> r.value == SplitRecord(rec).value.1
    ensures r.Err? ==> r.error == ValueError("Invalid field in the journal")
  {
    match SplitRecord(rec)
    case Err(_) => Err(SetError(-EINVAL, None, Some("Invalid field in the journal")).exc)
    case Ok((_, v)) => Ok(v)
  }

  /** The set query_unique builds from what the engine yields. */
  function UniqueSet(rs: seq<Bytes>): (r: Result<set<Bytes>, Exc>)
    ensures r.Ok? <==> forall i :: 0 <= i < |rs| ==> EQ in rs[i]
    ensures r.Ok? ==> forall v :: v in r.value <==> exists i :: 0 <= i < |rs| && v == SplitRecord(rs[i]).value.1
    ensures r.Err? ==> r.error == ValueError("Invalid field in the journal")
  {
    match Collect(rs, UniqueValue)
    case Err(e) => Err(e)
    case Ok(vs) =>
      assert forall i :: 0 <= i < |rs| ==> vs[i] == SplitRecord(rs[i]).value.1;
      Ok(set v | v in vs)
  }

  /** A set holding exactly the values of records that all have `=` is what UniqueSet builds. */
  lemma UniqueSetIs(rs: seq<Bytes>, values: set<Bytes>)
    requires forall i :: 0 <= i < |rs| ==> EQ in rs[i]
    requires forall v :: v in values <==> exists i :: 0 <= i < |rs| && v == SplitRecord(rs[i]).value.1
    ensures UniqueSet(rs) == Ok(values)
  {
    assert UniqueSet(rs).Ok?;
    assert UniqueSet(rs).value == values;
  }

  /** A record without `=` ends the query with an error. */
  lemma UniqueSetStops(rs: seq<Bytes>, i: nat)
    requires i < |rs| && FirstEq(rs[i]).None?
    requires forall k :: 0 <= k < i ==> UniqueValue(rs[k]).Ok?
    ensures UniqueSet(rs) == Err(SetError(-EINVAL, None, Some("Invalid field in the journal")).exc)
  {
    assert UniqueValue(rs[i]).Err?;
    CollectStops(rs, UniqueValue, i);
  }

  /** The loop of Reader_query_unique: each value after its record's first `=`, into a set. */
  method BuildUniqueSet(rs: seq<Bytes>) returns (r: Result<set<Bytes>, Exc>)
    ensures r == UniqueSet(rs)
  {
    var values: set<Bytes> := {};
    ghost var vs: seq<Bytes> := [];
    var i := 0;
    while i < |rs|
      invariant 0 <= i <= |rs|
      invariant |vs| == i && forall k :: 0 <= k < i ==> UniqueValue(rs[k]) == Ok(vs[k])
      invariant forall x :: x in values <==> x in vs
    {
      var d := FirstEq(rs[i]);
      if d.None? {
        UniqueSetStops(rs, i);
        return Err(SetError(-EINVAL, None, Some("Invalid field in the journal")).exc);
      }
      var v := rs[i][d.value + 1..];
      UniqueValueAt(rs[i], d.value);
      values := values + {v};
      vs := vs + [v];
      i := i + 1;
    }
    UniqueSetDone(rs, vs, values);
    return Ok(values);
  }

  /** The value of a record is what follows its first `=`. */
  lemma UniqueValueAt(rec: Bytes, i: nat)
    requires FirstEq(rec) == Some(i)
    ensures UniqueValue(rec) == Ok(rec[i + 1..])
  {
  }

  /** When every record has `=`, the set holds their values. */
  lemma UniqueSetDone(rs: seq<Bytes>, vs: seq<Bytes>, values: set<Bytes>)
    requires |vs| == |rs| && forall k :: 0 <= k < |rs| ==> UniqueValue(rs[k]) == Ok(vs[k])
    requires forall x :: x in values <==> x in vs
    ensures UniqueSet(rs) == Ok(values)
  {
    CollectAll(rs, UniqueValue, vs);
    assert values == set v | v in vs;
  }

  // --------------------------------------------------- enumerate_fields

  /** PyUnicode_FromString on a field name. */
  function DecodeName(b: Bytes): (r: Result<string, Exc>)
    ensures r.Ok? <==> Utf8.Decode(b).Some?
    ensures r.Ok? ==> Utf8.Decode(b) == Some(r.value)
    ensures r.Err? ==> r.error == UnicodeDecodeError
  {
    match Utf8.Decode(b)
    case None => Err(UnicodeDecodeError)
    case Some(s) => Ok(s)
  }

  /** The set of decoded names, or the failure of the first undecodable one. */
  function NameSet(fs: seq<Bytes>): (r: Result<set<string>, Exc>)
    ensures r.Ok? <==> forall i :: 0 <= i < |fs| ==> Utf8.Decode(fs[i]).Some?
    ensures r.Ok? ==> forall n :: n in r.value <==> exists i :: 0 <= i < |fs| && Utf8.Decode(fs[i]) == Some(n)
    ensures r.Err? ==> r.error == UnicodeDecodeError
  {
    match Collect(fs, DecodeName)
    case Err(e) => Err(e)
    case Ok(ns) => Ok(set n | n in ns)
  }

  // ------------------------------------------------------- open arguments

  /** long_as_fd: a Python int that fits a C `int`. */
  function LongAsFd(o: Py): (r: Result<int, Exc>)
    ensures r.Ok? <==> IsPyInt(o) && INT_MIN <= PyIntValue(o) <= INT_MAX
    ensures r.Ok? ==> r.value == PyIntValue(o)
    ensures r.Err? && IsPyInt(o) ==> r.error.OverflowError?
    ensures !IsPyInt(o) ==> r.Err? && r.error.TypeError?
  {
    match AsLong(o)
    case Err(e) => Err(e)
    case Ok(n) => if n != ToCInt(n % TWO_64) then Err(OverflowError("Value too large")) else Ok(n)
  }

  /** The compile-time features of the libsystemd the module was built against. */
  datatype Caps = Caps(openFiles: bool, directoryFd: bool, namespace: bool, enumerateFields: bool)

  /** The engine open call Reader_init makes, with its flags. */
  datatype OpenCall =
    | OpenDefault(flags: nat)
    | OpenDirectory(path: Bytes, flags: nat)
    | OpenDirectoryFd(fd: int, flags: nat)
    | OpenFiles(paths: seq<Bytes>, flags: nat)
    | OpenFilesFd(fds: seq<int>, flags: nat)
    | OpenNamespace(namespace: Bytes, flags: nat)

  /** An open call, or -ENOSYS because the build lacks it. */
  datatype Plan = Open(call: OpenCall) | NotSupported

  const SD_JOURNAL_LOCAL_ONLY: nat := 1

  /** The `"|i"` flags argument stored into an `unsigned`; LOCAL_ONLY when omitted. */
  function FlagsArg(flags: Option<Py>): (r: Result<nat, Exc>)
    ensures flags.None? ==> r == Ok(SD_JOURNAL_LOCAL_ONLY)
    ensures flags.Some? ==> (r.Ok? <==> ArgInt(flags.value).Ok?)
    ensures flags.Some? && r.Ok? ==> r.value <= UINT_MAX && (r.value - PyIntValue(flags.value)) % 0x1_0000_0000 == 0
    ensures flags.Some? && r.Err? ==> r.error == ArgInt(flags.value).error
  {
    match flags
    case None => Ok(SD_JOURNAL_LOCAL_ONLY)
    case Some(o) =>
      match ArgInt(o)
      case Err(e) => Err(e)
      case Ok(v) => Ok(v % 0x1_0000_0000)
  }

  /** The `files` argument when its first item is not an int: one path per item. */
  function PathsPlan(items: seq<Py>, flags: nat, caps: Caps): (r: Result<Plan, Exc>)
    ensures r.Ok? <==> Collect(items, FsConvert).Ok?
    ensures r.Ok? ==> r.value == (if caps.openFiles then Open(OpenFiles(Collect(items, FsConvert).value, flags)) else NotSupported)
  {
    match Collect(items, FsConvert)
    case Err(e) => Err(e)
    case Ok(paths) => if caps.openFiles then Ok(Open(OpenFiles(paths, flags))) else Ok(NotSupported)
  }

  /** The `files` argument when its first item is an int: one descriptor per item. */
  function FdsPlan(items: seq<Py>, flags: nat, caps: Caps): (r: Result<Plan, Exc>)
    ensures r.Ok? <==> Collect(items, LongAsFd).Ok?
    ensures r.Ok? ==> r.value == (if caps.directoryFd then Open(OpenFilesFd(Collect(items, LongAsFd).value, flags)) else NotSupported)
  {
    match Collect(items, LongAsFd)
    case Err(e) => Err(e)
    case Ok(fds) => if caps.directoryFd then Ok(Open(OpenFilesFd(fds, flags))) else Ok(NotSupported)
  }

  /** The branch taken for `files`: by descriptors when its first item is an int. */
  function FilesPlan(files: Py, flags: nat, caps: Caps): (r: Result<Plan, Exc>)
    requires !files.PyNone?
    ensures SequenceItems(files).None? ==> r == Err(TypeError(TypeName(files) + " object does not support indexing"))
    ensures r.Ok? && r.value.Open? ==> r.value.call.OpenFiles? || r.value.call.OpenFilesFd?
    ensures r.Ok? && r.value.Open? && r.value.call.OpenFilesFd? ==>
      |SequenceItems(files).value| > 0 && IsPyInt(SequenceItems(files).value[0])
  {
    match SequenceItems(files)
    case None => Err(TypeError(TypeName(files) + " object does not support indexing"))
    case Some(items) =>
      if |items| > 0 && IsPyInt(items[0]) then FdsPlan(items, flags, caps)
      else PathsPlan(items, flags, caps)
  }

  /** The branch taken for `path`: a directory descriptor for an int, a directory path otherwise. */
  function PathPlan(path: Py, flags: nat, caps: Caps): (r: Result<Plan, Exc>)
    ensures r.Ok? && r.value.Open? ==>
      (if IsPyInt(path) then r.value.call == OpenDirectoryFd(PyIntValue(path), flags)
       else FsConvert(path).Ok? && r.value.call == OpenDirectory(FsConvert(path).value, flags))
    ensures r == Ok(NotSupported) ==> IsPyInt(path) && !caps.directoryFd
  {
    if IsPyInt(path) then
      match LongAsFd(path)
      case Err(e) => Err(e)
      case Ok(fd) => if caps.directoryFd then Ok(Open(OpenDirectoryFd(fd, flags))) else Ok(NotSupported)
    else
      match FsConvert(path)
      case Err(e) => Err(e)
      case Ok(p) => Ok(Open(OpenDirectory(p, flags)))
  }

  /** The branch taken for `namespace`, converted only when the build supports it. */
  function NamespacePlan(namespace: Py, flags: nat, caps: Caps): (r: Result<Plan, Exc>)
    ensures r.Ok? && r.value.Open? ==>
      FsConvert(namespace).Ok? && r.value.call == OpenNamespace(FsConvert(namespace).value, flags)
    ensures r == Ok(NotSupported) <==> !caps.namespace
  {
    if caps.namespace then
      match FsConvert(namespace)
      case Err(e) => Err(e)
      case Ok(ns) => Ok(Open(OpenNamespace(ns, flags)))
    else Ok(NotSupported)
  }

  /**
   * Reader_init's choice of open call: `path` and `files` together are a
   * ValueError; otherwise `path` wins over `files`, `files` over
   * `namespace`, and with none of them the default journal is opened. A
   * call the build lacks is -ENOSYS. The flags reach every call unchanged.
   */
  function PlanOpen(flags: nat, path: Py, files: Py, namespace: Py, caps: Caps): (r: Result<Plan, Exc>)
    ensures !path.PyNone? && !files.PyNone? <==>
      r == Err(ValueError("path and files cannot be specified simultaneously"))
    ensures r.Ok? && r.value.Open? ==> r.value.call.flags == flags
    ensures r.Ok? && r.value.Open? && !path.PyNone? ==>
      r.value.call.OpenDirectory? || r.value.call.OpenDirectoryFd?
    ensures r.Ok? && r.value.Open? && path.PyNone? && !files.PyNone? ==>
      r.value.call.OpenFiles? || r.value.call.OpenFilesFd?
    ensures r.Ok? && r.value.Open? && path.PyNone? && files.PyNone? && !namespace.PyNone? ==>
      r.value.call.OpenNamespace?
    ensures path.PyNone? && files.PyNone? && namespace.PyNone? ==> r == Ok(Open(OpenDefault(flags)))
    ensures r == Ok(NotSupported) ==>
      (!path.PyNone? && !caps.directoryFd)
      || (path.PyNone? && !files.PyNone? && (!caps.openFiles || !caps.directoryFd))
      || (path.PyNone? && files.PyNone? && !namespace.PyNone? && !caps.namespace)
  {
    if !path.PyNone? && !files.PyNone? then
      Err(ValueError("path and files cannot be specified simultaneously"))
    else if !path.PyNone? then PathPlan(path, flags, caps)
    else if !files.PyNone? then FilesPlan(files, flags, caps)
    else if !namespace.PyNone? then NamespacePlan(namespace, flags, caps)
    else Ok(Open(OpenDefault(flags)))
  }

  /** A record found for a valid field name splits into that name and the rest. */
  lemma RecordOfField(f: Bytes, rec: Bytes)
    requires FieldValid(f) && |rec| > |f| && rec[..|f| + 1] == f + [EQ]
    ensures SplitRecord(rec) == Ok((f, rec[|f| + 1..]))
  {
    assert !FieldByte(EQ);
    assert EQ !in f;
    assert rec == f + [EQ] + rec[|f| + 1..] by {
      assert rec == rec[..|f| + 1] + rec[|f| + 1..];
    }
    SplitJoin(f, rec[|f| + 1..]);
  }

  // ------------------------------------------------------ the skip dispatch

  /** Reader_next's choice of engine call: none for 0, one step for +-1, a skip otherwise. */
  function Dispatch(skip: int): (s: Option<Step>)
    ensures s.None? <==> skip == 0
    ensures s == Some(Forward) <==> skip == 1
    ensures s == Some(Backward) <==> skip == -1
    ensures (s.Some? && s.value.ForwardSkip?) <==> skip > 1
    ensures (s.Some? && s.value.BackwardSkip?) <==> skip < -1
    ensures s.Some? && (s.value.ForwardSkip? || s.value.BackwardSkip?) ==>
      s.value.n == (if skip > 0 then skip else -skip)
  {
    if skip == 1 then Some(Forward)
    else if skip == -1 then Some(Backward)
    else if skip > 1 then Some(ForwardSkip(skip))
    else if skip < -1 then Some(BackwardSkip(-skip))
    else None
  }

  /**
   * `_next(skip)`: the bool returned (or the exception raised) and the
   * handle afterwards. A zero skip is refused before the engine is called;
   * a closed reader's engine call fails with EINVAL.
   */
  function NextOf(j: Option<Journal>, skip: Py): (res: (Result<bool, Exc>, Option<Journal>))
    ensures AsLongLong(skip).Err? ==> res == (Err(AsLongLong(skip).error), j)
    ensures AsLongLong(skip) == Ok(0) ==> res == (Err(ValueError("skip must be nonzero")), j)
    ensures j.None? && AsLongLong(skip).Ok? && AsLongLong(skip).value != 0 ==> res == (Err(OSError(EINVAL, None)), None)
    ensures j.Some? ==> res.1.Some? && res.1.value == j.value.(pos := res.1.value.pos)
  {
    match AsLongLong(skip)
    case Err(e) => (Err(e), j)
    case Ok(n) =>
      match Dispatch(n)
      case None => (Err(ValueError("skip must be nonzero")), j)
      case Some(step) =>
        match j
        case None => (Err(SetError(-EINVAL, None, None).exc), None)
        case Some(jr) =>
          var m := Move(jr, step);
          if m.0 < 0 then (Err(SetError(m.0, None, None).exc), Some(m.1))
          else (Ok(m.0 != 0), Some(m.1))
  }

  /** The position `_next(skip)` reaches: `skip` entries on, clamped to the first and last. */
  function Target(jr: Journal, skip: int): nat
  {
    if skip > 0 then (if jr.pos + skip < |jr.entries| then jr.pos + skip else |jr.entries|)
    else if jr.pos == 0 then 0
    else if jr.pos + skip > 1 then jr.pos + skip
    else 1
  }

  /**
   * On an open journal, `_next(skip)` moves `skip` entries forward (or back
   * for a negative skip) as far as the entries allow, and returns whether
   * it moved at all.
   */
  lemma NextMoves(jr: Journal, skip: int)
    requires skip != 0 && -INT_MAX <= skip <= INT_MAX && jr.pos <= |jr.entries|
    ensures NextOf(Some(jr), PyInt(skip)) == (Ok(Target(jr, skip) != jr.pos), Some(jr.(pos := Target(jr, skip))))
  {
  }

  /**
   * A skip the "L" format accepts but whose size is above INT_MAX reaches
   * the engine, which refuses it: OSError(ERANGE), and the reader stays put.
   */
  lemma NextTooFar(jr: Journal, skip: int)
    requires LLONG_MIN <= skip <= LLONG_MAX && (skip > INT_MAX || skip < -INT_MAX)
    ensures NextOf(Some(jr), PyInt(skip)) == (Err(OSError(ERANGE, None)), Some(jr))
  {
  }

  /** A closed reader refuses to move: OSError with EINVAL. */
  lemma NextWhenClosed(skip: int)
    requires skip != 0 && LLONG_MIN <= skip <= LLONG_MAX
    ensures NextOf(None, PyInt(skip)) == (Err(OSError(EINVAL, None)), None)
  {
  }

  /** Reader_previous as written negates `skip` in int64_t, where INT64_MIN negates to itself. */
  function PreviousArgAsWritten(skip: int): (r: int)
    requires LLONG_MIN <= skip <= LLONG_MAX
    ensures LLONG_MIN <= r <= LLONG_MAX
    ensures skip != LLONG_MIN ==> r == -skip
    ensures skip == LLONG_MIN ==> r == skip
  {
    if skip == LLONG_MIN then LLONG_MIN else -skip
  }

  /** `previous(skip)` as written: `_next` called with the int64_t negation of `skip`. */
  function PreviousAsWritten(j: Option<Journal>, skip: Py): (res: (Result<bool, Exc>, Option<Journal>))
    ensures AsLongLong(skip).Err? ==> res == (Err(AsLongLong(skip).error), j)
  {
    match AsLongLong(skip)
    case Err(e) => (Err(e), j)
    case Ok(n) => NextOf(j, PyInt(PreviousArgAsWritten(n)))
  }

  /**
   * `previous(INT64_MIN)` as written hands the wrapped skip on to the
   * engine, which refuses its size: OSError(ERANGE), not the OverflowError
   * an out-of-range negation gets in Python.
   */
  lemma PreviousAsWrittenReachesEngine(jr: Journal)
    ensures PreviousAsWritten(Some(jr), PyInt(LLONG_MIN)) == (Err(OSError(ERANGE, None)), Some(jr))
    ensures PreviousOf(Some(jr), PyInt(LLONG_MIN)) == (Err(OverflowError("int too big to convert")), Some(jr))
  {
    assert PreviousArgAsWritten(LLONG_MIN) == LLONG_MIN;
    assert AsLongLong(PyInt(LLONG_MIN)) == Ok(LLONG_MIN);
    NextTooFar(jr, LLONG_MIN);
  }

  /**
   * `previous(skip)` as intended: exactly `_next(-skip)` with Python's own
   * negation, so a negation outside int64 is an OverflowError.
   */
  function PreviousOf(j: Option<Journal>, skip: Py): (res: (Result<bool, Exc>, Option<Journal>))
    ensures AsLongLong(skip).Err? ==> res == (Err(AsLongLong(skip).error), j)
    ensures AsLongLong(skip).Ok? ==> res == NextOf(j, PyInt(-AsLongLong(skip).value))
  {
    match AsLongLong(skip)
    case Err(e) => (Err(e), j)
    case Ok(n) => NextOf(j, PyInt(-n))
  }

  /** `previous(skip)` moves back where `next(skip)` moves on, and INT64_MIN is refused. */
  lemma PreviousMoves(jr: Journal, skip: int)
    requires skip != 0 && LLONG_MIN <= skip <= LLONG_MAX && jr.pos <= |jr.entries|
    ensures -INT_MAX <= skip <= INT_MAX ==>
      PreviousOf(Some(jr), PyInt(skip)) == (Ok(Target(jr, -skip) != jr.pos), Some(jr.(pos := Target(jr, -skip))))
    ensures skip == LLONG_MIN ==>
      PreviousOf(Some(jr), PyInt(skip)) == (Err(OverflowError("int too big to convert")), Some(jr))
  {
    if -INT_MAX <= skip <= INT_MAX {
      NextMoves(jr, -skip);
    }
  }

  /** Apart from INT64_MIN, the code as written agrees with the intended `previous`. */
  lemma PreviousAgrees(j: Option<Journal>, skip: Py)
    requires AsLongLong(skip) != Ok(LLONG_MIN)
    ensures PreviousAsWritten(j, skip) == PreviousOf(j, skip)
  {
  }

  // ------------------------------------------------------------ opening

  /** What the engine's open call gives back: a journal, or a failure with errno. */
  datatype OpenReply = Opened(journal: Journal) | OpenFailed(errno: PositiveErrno)

  /** Carrying out a plan: the engine's return code (or the conversion's exception) and the handle after. */
  function Effect(p: Result<Plan, Exc>, open: OpenCall -> OpenReply, j: Option<Journal>): (res: (Result<int, Exc>, Option<Journal>))
    ensures res.0.Err? ==> p.Err? && res == (Err(p.error), j)
    ensures res.0 == Ok(0) <==> p.Ok? && p.value.Open? && open(p.value.call).Opened?
    ensures res.0 == Ok(0) ==> res.1 == Some(open(p.value.call).journal)
    ensures res.0 != Ok(0) ==> res.1 == j
    ensures res.0.Ok? ==> res.0.value <= 0
  {
    match p
    case Err(e) => (Err(e), j)
    case Ok(NotSupported) => (Ok(-ENOSYS), j)
    case Ok(Open(c)) =>
      match open(c)
      case Opened(jr) => (Ok(0), Some(jr))
      case OpenFailed(e) => (Ok(-(e as int)), j)
  }

  /**
   * The exception Reader_init leaves pending on the way to its open call:
   * fetching the first item of an empty `files` raises IndexError, and
   * nothing after it clears the error.
   */
  function PendingIndexError(path: Py, files: Py): (e: Option<Exc>)
    ensures e.Some? <==> path.PyNone? && SequenceItems(files) == Some([])
    ensures e.Some? ==> e.value.IndexError?
  {
    if path.PyNone? && SequenceItems(files) == Some([]) then
      Some(IndexError(
        match files
        case PyTuple(_) => "tuple index out of range"
        case PyStr(_) => "string index out of range"
        case PyBytes(_) => "index out of range"
        case _ => "list index out of range"))
    else None
  }

  /**
   * The status Reader_init returns and the handle it leaves. A success
   * with an IndexError still pending reaches Python as a SystemError
   * caused by it.
   */
  function InitOf(j: Option<Journal>, flags: Option<Py>, path: Py, files: Py, namespace: Py,
                  caps: Caps, open: OpenCall -> OpenReply): (res: (Status, Option<Journal>))
    ensures FlagsArg(flags).Err? ==> res == (Raised(FlagsArg(flags).error), j)
    ensures res.0.Passed? ==> res.0.code == 0 && PendingIndexError(path, files).None?
    ensures res.1 != j ==> FlagsArg(flags).Ok? && res.1.Some?
  {
    match FlagsArg(flags)
    case Err(e) => (Raised(e), j)
    case Ok(f) => Finish(Effect(PlanOpen(f, path, files, namespace, caps), open, j), PendingIndexError(path, files))
  }

  /** The end of Reader_init: set_error on the open call's code, with `pending` still set. */
  function Finish(e: (Result<int, Exc>, Option<Journal>), pending: Option<Exc>): (res: (Status, Option<Journal>))
    requires e.0.Ok? ==> e.0.value <= 0
    ensures res.1 == e.1
    ensures e.0.Err? ==> res.0 == Raised(e.0.error)
    ensures e.0 == Ok(0) && pending.None? ==> res.0 == Passed(0)
    ensures e.0 == Ok(0) && pending.Some? ==> res.0 == Raised(SystemError(pending.value))
    ensures e.0.Ok? && e.0.value < 0 ==>
      res.0 == SetError(e.0.value, None, Some("Opening the journal failed")) && res.0.Raised? && !res.0.exc.SystemError?
    ensures res.0.Passed? <==> e.0 == Ok(0) && pending.None?
  {
    match e.0
    case Err(x) => (Raised(x), e.1)
    case Ok(r) =>
      var s := SetError(r, None, Some("Opening the journal failed"));
      if s.Passed? && pending.Some? then (Raised(SystemError(pending.value)), e.1)
      else (s, e.1)
  }

  /** Whether the flags parse, the arguments give an open call and the engine opens the journal. */
  predicate Opens(flags: Option<Py>, path: Py, files: Py, namespace: Py, caps: Caps, open: OpenCall -> OpenReply)
  {
    FlagsArg(flags).Ok? && PlanOpen(FlagsArg(flags).value, path, files, namespace, caps).Ok?
    && PlanOpen(FlagsArg(flags).value, path, files, namespace, caps).value.Open?
    && open(PlanOpen(FlagsArg(flags).value, path, files, namespace, caps).value.call).Opened?
  }

  /**
   * Reader_init succeeds exactly when the journal opens and no IndexError
   * is pending; with an IndexError pending the journal is still opened but
   * a SystemError is raised. Either way the opened journal becomes the
   * handle.
   */
  lemma InitRules(j: Option<Journal>, flags: Option<Py>, path: Py, files: Py, namespace: Py,
                  caps: Caps, open: OpenCall -> OpenReply)
    ensures var r := InitOf(j, flags, path, files, namespace, caps, open);
      && (r.0.Passed? ==> r.0.code == 0)
      && (r.0.Passed? <==> Opens(flags, path, files, namespace, caps, open) && PendingIndexError(path, files).None?)
      && (Opens(flags, path, files, namespace, caps, open) && PendingIndexError(path, files).Some? ==>
          r.0 == Raised(SystemError(PendingIndexError(path, files).value)))
      && (Opens(flags, path, files, namespace, caps, open) ==>
          r.1 == Some(open(PlanOpen(FlagsArg(flags).value, path, files, namespace, caps).value.call).journal))
  {
    var r := InitOf(j, flags, path, files, namespace, caps, open);
    if FlagsArg(flags).Ok? {
      var p := PlanOpen(FlagsArg(flags).value, path, files, namespace, caps);
      var e := Effect(p, open, j);
      var pending := PendingIndexError(path, files);
      assert r == Finish(e, pending);
      OpensIffOpened(j, flags, path, files, namespace, caps, open);
      assert r.0.Passed? <==> e.0 == Ok(0) && pending.None?;
      assert r.1 == e.1;
    } else {
      assert !Opens(flags, path, files, namespace, caps, open);
      assert r.0.Raised?;
    }
  }

  /** Opens is the engine's open call returning 0. */
  lemma OpensIffOpened(j: Option<Journal>, flags: Option<Py>, path: Py, files: Py, namespace: Py,
                       caps: Caps, open: OpenCall -> OpenReply)
    requires FlagsArg(flags).Ok?
    ensures Opens(flags, path, files, namespace, caps, open) <==>
      Effect(PlanOpen(FlagsArg(flags).value, path, files, namespace, caps), open, j).0 == Ok(0)
  {
  }

  /**
   * Every other failure of Reader_init leaves the handle as it was; `path`
   * with `files` is a ValueError, and a call the build lacks an OSError
   * with ENOSYS.
   */
  lemma InitFailures(j: Option<Journal>, flags: Option<Py>, path: Py, files: Py, namespace: Py,
                     caps: Caps, open: OpenCall -> OpenReply)
    ensures var r := InitOf(j, flags, path, files, namespace, caps, open);
      && (!Opens(flags, path, files, namespace, caps, open) ==> r.0.Raised? && r.1 == j)
      && (FlagsArg(flags).Ok? && !path.PyNone? && !files.PyNone? ==>
          r.0 == Raised(ValueError("path and files cannot be specified simultaneously")))
      && (FlagsArg(flags).Ok? && PlanOpen(FlagsArg(flags).value, path, files, namespace, caps) == Ok(NotSupported) ==>
          r.0 == Raised(OSError(ENOSYS, None)))
  {
    var r := InitOf(j, flags, path, files, namespace, caps, open);
    if FlagsArg(flags).Ok? {
      var p := PlanOpen(FlagsArg(flags).value, path, files, namespace, caps);
      var e := Effect(p, open, j);
      assert r == Finish(e, PendingIndexError(path, files));
      OpensIffOpened(j, flags, path, files, namespace, caps, open);
      if !Opens(flags, path, files, namespace, caps, open) {
        assert e.0 != Ok(0) && e.1 == j;
      }
    }
  }

  /** An empty `files` list opens no file, yet the journal is opened and a SystemError raised. */
  lemma InitEmptyFiles(j: Option<Journal>, caps: Caps, open: OpenCall -> OpenReply)
    requires caps.openFiles && open(OpenFiles([], SD_JOURNAL_LOCAL_ONLY)).Opened?
    ensures InitOf(j, None, PyNone, PyList([]), PyNone, caps, open)
      == (Raised(SystemError(IndexError("list index out of range"))),
          Some(open(OpenFiles([], SD_JOURNAL_LOCAL_ONLY)).journal))
  {
    assert Collect([], FsConvert) == Ok([]);
  }

  /** strv_converter: fills a zeroed array with one path per item, stopping at the first failure. */
  method StrvConverter(items: seq<Py>) returns (r: Result<seq<Bytes>, Exc>)
    ensures r == Collect(items, FsConvert)
  {
    var a := new Bytes[|items|](_ => []);
    var i := 0;
    while i < |items|
      invariant 0 <= i <= |items|
      invariant forall k :: 0 <= k < i ==> FsConvert(items[k]) == Ok(a[k])
    {
      var s := FsConvert(items[i]);
      if s.Err? {
        CollectStops(items, FsConvert, i);
        return Err(s.error);
      }
      a[i] := s.value;
      i := i + 1;
    }
    CollectAll(items, FsConvert, a[..]);
    return Ok(a[..]);
  }

  /** intlist_converter: fills an array with one descriptor per item, stopping at the first failure. */
  method IntlistConverter(items: seq<Py>) returns (r: Result<seq<int>, Exc>)
    ensures r == Collect(items, LongAsFd)
  {
    var a := new int[|items|];
    var i := 0;
    while i < |items|
      invariant 0 <= i <= |items|
      invariant forall k :: 0 <= k < i ==> LongAsFd(items[k]) == Ok(a[k])
    {
      var fd := LongAsFd(items[i]);
      if fd.Err? {
        CollectStops(items, LongAsFd, i);
        return Err(fd.error);
      }
      a[i] := fd.value;
      i := i + 1;
    }
    CollectAll(items, LongAsFd, a[..]);
    return Ok(a[..]);
  }

  // ------------------------------------------------------------ the reader

  /**
   * `_Reader`: a journal handle, NULL before `__init__` and after `close`.
   * Methods that change the handle are proved against the functions above;
   * those that only read it are functions of the object.
   */
  class Reader {
    var j: Option<Journal>

    /** A new object, before `__init__`: the handle is NULL. */
    constructor ()
      ensures j == None
    {
      j := None;
    }

    /** The `closed` attribute. */
    function Closed(): bool
      reads this
    {
      j.None?
    }

    /** Runs the engine's open call; on success the handle is replaced. */
    method OpenWith(c: OpenCall, open: OpenCall -> OpenReply) returns (r: int)
      modifies this
      ensures open(c).Opened? ==> r == 0 && j == Some(open(c).journal)
      ensures open(c).OpenFailed? ==> r == -(open(c).errno as int) && j == old(j)
    {
      match open(c)
      case Opened(jr) =>
        j := Some(jr);
        r := 0;
      case OpenFailed(e) =>
        r := -(e as int);
    }

    /** The `path` branch of Reader_init. */
    method OpenPath(path: Py, flags: nat, caps: Caps, open: OpenCall -> OpenReply) returns (res: Result<int, Exc>)
      modifies this
      ensures (res, j) == Effect(PathPlan(path, flags, caps), open, old(j))
    {
      if IsPyInt(path) {
        var fd := LongAsFd(path);
        if fd.Err? {
          return Err(fd.error);
        }
        if caps.directoryFd {
          var r := OpenWith(OpenDirectoryFd(fd.value, flags), open);
          return Ok(r);
        }
        return Ok(-ENOSYS);
      }
      var p := FsConvert(path);
      if p.Err? {
        return Err(p.error);
      }
      var r := OpenWith(OpenDirectory(p.value, flags), open);
      return Ok(r);
    }

    /** Opening by descriptors, the items converted by intlist_converter. */
    method OpenFds(items: seq<Py>, flags: nat, caps: Caps, open: OpenCall -> OpenReply) returns (res: Result<int, Exc>)
      modifies this
      ensures (res, j) == Effect(FdsPlan(items, flags, caps), open, old(j))
    {
      var fds := IntlistConverter(items);
      if fds.Err? {
        return Err(fds.error);
      }
      if caps.directoryFd {
        var r := OpenWith(OpenFilesFd(fds.value, flags), open);
        return Ok(r);
      }
      return Ok(-ENOSYS);
    }

    /** Opening by file names, the items converted by strv_converter. */
    method OpenPaths(items: seq<Py>, flags: nat, caps: Caps, open: OpenCall -> OpenReply) returns (res: Result<int, Exc>)
      modifies this
      ensures (res, j) == Effect(PathsPlan(items, flags, caps), open, old(j))
    {
      var paths := StrvConverter(items);
      if paths.Err? {
        return Err(paths.error);
      }
      if caps.openFiles {
        var r := OpenWith(OpenFiles(paths.value, flags), open);
        return Ok(r);
      }
      return Ok(-ENOSYS);
    }

    /** The `files` branch of Reader_init: descriptors when the first item is an int, paths otherwise. */
    method OpenFilesArg(files: Py, flags: nat, caps: Caps, open: OpenCall -> OpenReply) returns (res: Result<int, Exc>)
      requires !files.PyNone?
      modifies this
      ensures (res, j) == Effect(FilesPlan(files, flags, caps), open, old(j))
    {
      var items := SequenceItems(files);
      if items.None? {
        return Err(TypeError(TypeName(files) + " object does not support indexing"));
      }
      if |items.value| > 0 && IsPyInt(items.value[0]) {
        res := OpenFds(items.value, flags, caps, open);
      } else {
        res := OpenPaths(items.value, flags, caps, open);
      }
    }

    /** The `namespace` branch of Reader_init. */
    method OpenNamespaceArg(namespace: Py, flags: nat, caps: Caps, open: OpenCall -> OpenReply) returns (res: Result<int, Exc>)
      modifies this
      ensures (res, j) == Effect(NamespacePlan(namespace, flags, caps), open, old(j))
    {
      if !caps.namespace {
        return Ok(-ENOSYS);
      }
      var ns := FsConvert(namespace);
      if ns.Err? {
        return Err(ns.error);
      }
      var r := OpenWith(OpenNamespace(ns.value, flags), open);
      return Ok(r);
    }

    /** Reader_init's choice of open call, made and run. */
    method OpenFor(flags: nat, path: Py, files: Py, namespace: Py, caps: Caps, open: OpenCall -> OpenReply)
      returns (res: Result<int, Exc>)
      modifies this
      ensures (res, j) == Effect(PlanOpen(flags, path, files, namespace, caps), open, old(j))
    {
      if !path.PyNone? && !files.PyNone? {
        return Err(ValueError("path and files cannot be specified simultaneously"));
      }
      if !path.PyNone? {
        res := OpenPath(path, flags, caps, open);
      } else if !files.PyNone? {
        res := OpenFilesArg(files, flags, caps, open);
      } else if !namespace.PyNone? {
        res := OpenNamespaceArg(namespace, flags, caps, open);
      } else {
        var r := OpenWith(OpenDefault(flags), open);
        res := Ok(r);
      }
    }

    /** Reader_init. */
    method Init(flags: Option<Py>, path: Py, files: Py, namespace: Py, caps: Caps, open: OpenCall -> OpenReply)
      returns (s: Status)
      modifies this
      ensures (s, j) == InitOf(old(j), flags, path, files, namespace, caps, open)
    {
      var f := FlagsArg(flags);
      if f.Err? {
        return Raised(f.error);
      }
      var res := OpenFor(f.value, path, files, namespace, caps, open);
      ghost var e := Effect(PlanOpen(f.value, path, files, namespace, caps), open, old(j));
      assert e == (res, j);
      assert InitOf(old(j), flags, path, files, namespace, caps, open) == Finish(e, PendingIndexError(path, files));
      if res.Err? {
        return Raised(res.error);
      }
      s := SetError(res.value, None, Some("Opening the journal failed"));
      var pending := PendingIndexError(path, files);
      if s.Passed? && pending.Some? {
        s := Raised(SystemError(pending.value));
      }
    }

    /** Reader_close: the handle becomes NULL, whatever it was. */
    method Close()
      modifies this
      ensures j == None && Closed()
    {
      j := None;
    }

    /** `__enter__` hands back the reader itself. */
    method Enter() returns (r: Reader)
      ensures r == this
    {
      r := this;
    }

    /** `__exit__` closes the reader. */
    method Exit()
      modifies this
      ensures j == None && Closed()
    {
      Close();
    }

    /** `_next`. */
    method Next(skip: Py) returns (r: Result<bool, Exc>)
      modifies this
      ensures (r, j) == NextOf(old(j), skip)
    {
      var n := AsLongLong(skip);
      if n.Err? {
        return Err(n.error);
      }
      if n.value == 0 {
        return Err(ValueError("skip must be nonzero"));
      }
      var step := Dispatch(n.value).value;
      if j.None? {
        return Err(SetError(-EINVAL, None, None).exc);
      }
      var m := Move(j.value, step);
      j := Some(m.1);
      if m.0 < 0 {
        return Err(SetError(m.0, None, None).exc);
      }
      return Ok(m.0 != 0);
    }

    /** `previous`: `_next` with the skip negated in int64_t, as the code does. */
    method Previous(skip: Py) returns (r: Result<bool, Exc>)
      modifies this
      ensures (r, j) == PreviousAsWritten(old(j), skip)
    {
      var n := AsLongLong(skip);
      if n.Err? {
        return Err(n.error);
      }
      r := Next(PyInt(PreviousArgAsWritten(n.value)));
    }
  
    // ---------------------------------------------------- entry data

    /**
     * Reader_get_all: the current entry as a dictionary, built by the
     * FOREACH_DATA loop. A closed reader, or one not on an entry, yields an
     * empty dictionary.
     */
    method GetAll() returns (r: Result<EntryDict, Exc>)
      ensures r == GetAllOf(Data(j))
    {
      r := BuildEntryDict(Data(j));
    }

    // ------------------------------------------------------- matches

    /**
     * Reader_add_match: a `FIELD=value` match as str (UTF-8) or bytes. One
     * longer than INT_MAX is refused with ENOBUFS before the engine sees it.
     */
    method AddMatch(m: Py) returns (r: Result<(), Exc>)
      modifies this
      ensures (r, j) == AddMatchOf(old(j), m)
    {
      var arg := MatchBytes(m);
      if arg.None? {
        return Err(TypeError("a bytes-like object is required, not " + TypeName(m)));
      }
      var b := arg.value;
      if |b| > INT_MAX {
        return Err(SetError(-ENOBUFS, None, None).exc);
      }
      var code := -EINVAL;
      if j.Some? {
        var res := Engine.AddMatch(j.value, b);
        code := res.0;
        j := Some(res.1);
      }
      var st := SetError(code, None, Some("Invalid match"));
      if st.Raised? {
        return Err(st.exc);
      }
      return Ok(());
    }

    // -------------------------------------------- unique values and fields

    /** Reader_query_unique: the set of values the engine reports for `field`. */
    method QueryUnique(field: string) returns (r: Result<set<Bytes>, Exc>)
      ensures r == QueryUniqueOf(j, field)
    {
      var q := ArgS(field);
      if q.Err? {
        return Err(q.error);
      }
      var st := SetError(Engine.QueryUnique(j, q.value), None, Some("Invalid field name"));
      if st.Raised? {
        return Err(st.exc);
      }
      r := BuildUniqueSet(UniqueRecords(j.value, q.value));
    }

    /**
     * Reader_enumerate_fields: the names of all fields in the journal. The
     * enumeration is restarted first and stepped until the engine reports
     * the end, which leaves the engine's field cursor behind the last name.
     */
    method EnumerateFields(caps: Caps) returns (r: Result<set<string>, Exc>)
      modifies this
      ensures (r, j) == EnumerateFieldsOf(old(j), caps)
    {
      if !caps.enumerateFields {
        return Err(SetError(-ENOSYS, None, Some("Compiled without support for sd_journal_enumerate_fields")).exc);
      }
      j := RestartFields(j);
      ghost var fs := if j.Some? then j.value.fields else [];
      ghost var ns: seq<string> := [];
      var names: set<string> := {};
      while true
        invariant j.None? <==> old(j).None?
        invariant |ns| <= |fs|
        invariant j.Some? ==> j == Some(old(j).value.(fieldCursor := |ns|))
        invariant j.None? ==> ns == []
        invariant forall k :: 0 <= k < |ns| ==> DecodeName(fs[k]) == Ok(ns[k])
        invariant names == set n | n in ns
        decreases |fs| - |ns|
      {
        var step := EnumerateField(j);
        if step.0 == 0 {
          break;
        }
        var st := SetError(step.0, None, Some("Field enumeration failed"));
        if st.Raised? {
          return Err(st.exc);
        }
        j := step.2;
        var name := DecodeName(step.1);
        if name.Err? {
          CollectStops(fs, DecodeName, |ns|);
          return Err(name.error);
        }
        names := names + {name.value};
        ns := ns + [name.value];
      }
      CollectAll(fs, DecodeName, ns);
      return Ok(names);
    }

    // ------------------------------------------------------- catalog

    /** Reader_get_catalog: the catalog text for the current entry. */
    function GetCatalog(): Result<string, Exc>
      reads this
    {
      CatalogText(j)
    }

    // ------------------------------------------------- data threshold

    /**
     * The `data_threshold` setter. Deleting the attribute is an
     * AttributeError and a non-int a TypeError; an int is cast to `size_t`,
     * so a negative one wraps.
     */
    method SetDataThreshold(value: Option<Py>) returns (s: Status)
      modifies this
      ensures (s, j) == SetDataThresholdOf(old(j), value)
    {
      if value.None? {
        return Raised(AttributeError("Cannot delete data threshold"));
      }
      if !IsPyInt(value.value) {
        return Raised(TypeError("Data threshold must be an int"));
      }
      var n := AsLong(value.value);
      var size := if n.Ok? then n.value % TWO_64 else UINT64_MAX;
      var code := -EINVAL;
      if j.Some? {
        j := Some(j.value.(threshold := size));
        code := 0;
      }
      s := SetError(code, None, None);
      if s.Passed? && n.Err? {
        s := Raised(n.error);
      }
    }
  }

  /** Reader_get_realtime: the current entry's wall-clock timestamp. */
  function Realtime(j: Option<Journal>): (r: Result<uint64, Exc>)
    ensures r.Ok? <==> j.Some? && j.value.HasCurrent()
    ensures r.Ok? ==> r.value == j.value.Current().realtime
    ensures j.None? ==> r == Err(OSError(EINVAL, None))
    ensures j.Some? && !j.value.HasCurrent() ==> r == Err(OSError(EADDRNOTAVAIL, None))
  {
    match j
    case None => Err(SetError(-EINVAL, None, None).exc)
    case Some(jr) =>
      if !jr.HasCurrent() then Err(SetError(-EADDRNOTAVAIL, None, None).exc)
      else Ok(jr.Current().realtime)
  }

  /** Reader_get_monotonic: the current entry's monotonic timestamp and boot id. */
  function Monotonic(j: Option<Journal>): (r: Result<(uint64, Bytes), Exc>)
    ensures r.Ok? <==> j.Some? && j.value.HasCurrent()
    ensures r.Ok? ==> r.value == (j.value.Current().monotonic, j.value.Current().bootId)
    ensures j.None? ==> r == Err(OSError(EINVAL, None))
    ensures j.Some? && !j.value.HasCurrent() ==> r == Err(OSError(EADDRNOTAVAIL, None))
  {
    match j
    case None => Err(SetError(-EINVAL, None, None).exc)
    case Some(jr) =>
      if !jr.HasCurrent() then Err(SetError(-EADDRNOTAVAIL, None, None).exc)
      else Ok((jr.Current().monotonic, jr.Current().bootId))
  }

  /** Reader_get_cursor: the current entry's cursor, decoded as text. */
  function Cursor(j: Option<Journal>): (r: Result<string, Exc>)
    ensures r.Ok? ==> j.Some? && j.value.HasCurrent() && Utf8.Decode(j.value.Current().cursor) == Some(r.value)
    ensures j.None? ==> r == Err(OSError(EINVAL, None))
    ensures j.Some? && !j.value.HasCurrent() ==> r == Err(OSError(EADDRNOTAVAIL, None))
    ensures j.Some? && j.value.HasCurrent() ==>
      (r.Ok? <==> Utf8.Decode(j.value.Current().cursor).Some?)
      && (r.Err? ==> r.error == UnicodeDecodeError)
  {
    match j
    case None => Err(SetError(-EINVAL, None, None).exc)
    case Some(jr) =>
      if !jr.HasCurrent() then Err(SetError(-EADDRNOTAVAIL, None, None).exc)
      else DecodeName(jr.Current().cursor)
  }

  /** Reader_get_timeout: the engine's deadline, or None for the "no timeout" value UINT64_MAX. */
  function Timeout(j: Option<Journal>): (r: Result<Option<uint64>, Exc>)
    ensures j.None? <==> r == Err(OSError(EINVAL, None))
    ensures j.Some? ==> r.Ok? && (r.value.None? <==> j.value.timeout == UINT64_MAX)
    ensures j.Some? && r.value.Some? ==> r.value.value == j.value.timeout
  {
    match j
    case None => Err(SetError(-EINVAL, None, None).exc)
    case Some(jr) => if jr.timeout == UINT64_MAX then Ok(None) else Ok(Some(jr.timeout))
  }

  /**
   * Reader_get_timeout_ms: absolute_timeout, as written, on the engine's
   * deadline: -1 for none, 0 for a deadline already passed.
   */
  function TimeoutMs(j: Option<Journal>, now: uint64): (r: Result<int, Exc>)
    ensures j.None? <==> r == Err(OSError(EINVAL, None))
    ensures j.Some? ==> r.Ok? && r.value == AbsoluteTimeoutAsWritten(j.value.timeout, now)
    ensures Timeout(j) == Ok(None) ==> r == Ok(-1)
    ensures j.Some? && j.value.timeout != UINT64_MAX && j.value.timeout <= now ==> r == Ok(0)
  {
    match j
    case None => Err(SetError(-EINVAL, None, None).exc)
    case Some(jr) => Ok(AbsoluteTimeoutAsWritten(jr.timeout, now))
  }

  /**
   * For a deadline less than INT_MAX milliseconds away, get_timeout_ms is
   * the remaining time rounded up to milliseconds, and -1 exactly when
   * there is no deadline.
   */
  lemma TimeoutMsAgrees(jr: Journal, now: uint64)
    requires jr.timeout <= now as int + INT_MAX * 1000
    ensures TimeoutMs(Some(jr), now) == Ok(AbsoluteTimeout(jr.timeout, now))
    ensures TimeoutMs(Some(jr), now) == Ok(-1) <==> Timeout(Some(jr)) == Ok(None)
  {
    AbsoluteTimeoutAgrees(jr.timeout, now as nat);
  }

  /**
   * Reader_get: the value of `field` in the current entry, everything
   * after the first `=` of its record. An absent field is a KeyError; a
   * field name the engine refuses, and a closed reader, a ValueError.
   */
  function EntryValue(j: Option<Journal>, field: string): (r: Result<Bytes, Exc>)
    ensures '\0' in field ==> r == Err(ValueError("embedded null character"))
    ensures '\0' !in field ==>
      (r == Err(KeyError(PyStr(field))) <==> GetData(j, Utf8.Encode(field)) == Err(-ENOENT))
    ensures '\0' !in field && GetData(j, Utf8.Encode(field)) == Err(-EINVAL) ==>
      r == Err(ValueError("field name is not valid"))
    ensures r.Ok? ==> GetData(j, Utf8.Encode(field)) == Ok(Utf8.Encode(field) + [EQ] + r.value)
  {
    match ArgS(field)
    case Err(e) => Err(e)
    case Ok(f) =>
      match GetData(j, f)
      case Err(code) =>
        if code == -ENOENT then Err(KeyError(PyStr(field)))
        else Err(SetError(code, None, Some("field name is not valid")).exc)
      case Ok(rec) =>
        RecordOfField(f, rec);
        match SplitRecord(rec)
        case Err(e) => Err(e)
        case Ok((_, v)) => Ok(v)
  }

  /** The key of get_catalog's KeyError: the id as a str; an id that is not UTF-8 stays bytes. */
  function MessageIdKey(id: Bytes): (k: Py)
    ensures Utf8.Decode(id).Some? ==> k == PyStr(Utf8.Decode(id).value)
    ensures k.PyBytes? ==> Utf8.Decode(id).None? && k.b == id
  {
    match Utf8.Decode(id)
    case Some(s) => PyStr(s)
    case None => PyBytes(id)
  }

  /**
   * Reader_get_catalog: the catalog text for the current entry. When the
   * catalog has no text, a present MESSAGE_ID is a KeyError carrying the
   * id (the text after `MESSAGE_ID=`) and an absent one an IndexError.
   */
  function CatalogText(j: Option<Journal>): (r: Result<string, Exc>)
    ensures r.Ok? ==> Engine.GetCatalog(j).Ok? && Utf8.Decode(Engine.GetCatalog(j).value) == Some(r.value)
    ensures (r.Err? && r.error.KeyError?) <==>
      Engine.GetCatalog(j) == Err(-ENOENT) && GetData(j, MESSAGE_ID).Ok?
    ensures r.Err? && r.error.KeyError? ==>
      r.error.key == MessageIdKey(GetData(j, MESSAGE_ID).value[|MESSAGE_ID| + 1..])
      && GetData(j, MESSAGE_ID).value == MESSAGE_ID + [EQ] + GetData(j, MESSAGE_ID).value[|MESSAGE_ID| + 1..]
    ensures r == Err(IndexError("no MESSAGE_ID field")) <==>
      Engine.GetCatalog(j) == Err(-ENOENT) && GetData(j, MESSAGE_ID) == Err(-ENOENT)
  {
    match Engine.GetCatalog(j)
    case Ok(text) => DecodeName(text)
    case Err(code) =>
      if code == -ENOENT then
        match GetData(j, MESSAGE_ID)
        case Ok(rec) =>
          assert rec == rec[..|MESSAGE_ID| + 1] + rec[|MESSAGE_ID| + 1..];
          Err(KeyError(MessageIdKey(rec[|MESSAGE_ID| + 1..])))
        case Err(c) =>
          if c == -ENOENT then Err(IndexError("no MESSAGE_ID field"))
          else match SetError(c, None, None)
            case Raised(e) => Err(e)
            case Passed(_) => Err(IndexError("no MESSAGE_ID field"))
      else Err(SetError(code, None, None).exc)
  }

  /** What `add_match` returns and the handle after it. */
  function AddMatchOf(j: Option<Journal>, m: Py): (res: (Result<(), Exc>, Option<Journal>))
    ensures MatchBytes(m).None? ==> res == (Err(TypeError("a bytes-like object is required, not " + TypeName(m))), j)
    ensures MatchBytes(m).Some? && |MatchBytes(m).value| > INT_MAX ==> res == (Err(OSError(ENOBUFS, None)), j)
    ensures res.0.Ok? <==>
      (j.Some? && MatchBytes(m).Some? && |MatchBytes(m).value| <= INT_MAX && MatchValid(MatchBytes(m).value))
    ensures res.0.Ok? ==> res.1 == Some(j.value.(matches := j.value.matches + [MatchBytes(m).value]))
    ensures res.0.Err? ==> res.1 == j
    ensures MatchBytes(m).Some? && |MatchBytes(m).value| <= INT_MAX && res.0.Err? ==>
      res.0 == Err(ValueError("Invalid match"))
  {
    match MatchBytes(m)
    case None => (Err(TypeError("a bytes-like object is required, not " + TypeName(m))), j)
    case Some(b) =>
      if |b| > INT_MAX then (Err(SetError(-ENOBUFS, None, None).exc), j)
      else
        var (code, handle) := match j
          case None => (-EINVAL, j)
          case Some(jr) => (Engine.AddMatch(jr, b).0, Some(Engine.AddMatch(jr, b).1));
        match SetError(code, None, Some("Invalid match"))
        case Raised(e) => (Err(e), handle)
        case Passed(_) => (Ok(()), handle)
  }

  /** The `"s#"` format: a str as UTF-8, bytes as they are. */
  function MatchBytes(m: Py): (b: Option<Bytes>)
    ensures b.Some? <==> m.PyStr? || m.PyBytes?
    ensures m.PyStr? ==> b == Some(Utf8.Encode(m.s))
    ensures m.PyBytes? ==> b == Some(m.b)
  {
    match m
    case PyStr(t) => Some(Utf8.Encode(t))
    case PyBytes(x) => Some(x)
    case _ => None
  }

  /** What query_unique returns for `field`. */
  function QueryUniqueOf(j: Option<Journal>, field: string): (r: Result<set<Bytes>, Exc>)
    ensures '\0' in field ==> r == Err(ValueError("embedded null character"))
    ensures '\0' !in field && !(j.Some? && FieldValid(Utf8.Encode(field))) ==>
      r == Err(ValueError("Invalid field name"))
    ensures '\0' !in field && j.Some? && FieldValid(Utf8.Encode(field)) ==>
      r == UniqueSet(UniqueRecords(j.value, Utf8.Encode(field)))
  {
    match ArgS(field)
    case Err(e) => Err(e)
    case Ok(q) =>
      match SetError(Engine.QueryUnique(j, q), None, Some("Invalid field name"))
      case Raised(e) => Err(e)
      case Passed(_) => UniqueSet(UniqueRecords(j.value, q))
  }

  /** What enumerate_fields returns and the handle after it. */
  function EnumerateFieldsOf(j: Option<Journal>, caps: Caps): (res: (Result<set<string>, Exc>, Option<Journal>))
    ensures !caps.enumerateFields ==> res == (Err(OSError(ENOSYS, None)), j)
    ensures caps.enumerateFields && j.None? ==> res == (Err(ValueError("Field enumeration failed")), None)
    ensures caps.enumerateFields && j.Some? ==> res.0 == NameSet(j.value.fields)
    ensures caps.enumerateFields && j.Some? && res.0.Ok? ==>
      res.1 == Some(j.value.(fieldCursor := |j.value.fields|))
  {
    if !caps.enumerateFields then
      (Err(SetError(-ENOSYS, None, Some("Compiled without support for sd_journal_enumerate_fields")).exc), j)
    else match j
      case None => (Err(SetError(-EINVAL, None, Some("Field enumeration failed")).exc), None)
      case Some(jr) =>
        var stop := FirstError(jr.fields, DecodeName);
        (NameSet(jr.fields), Some(jr.(fieldCursor := if stop < |jr.fields| then stop + 1 else stop)))
  }

  /** What the `data_threshold` setter returns and the handle after it. */
  function SetDataThresholdOf(j: Option<Journal>, value: Option<Py>): (res: (Status, Option<Journal>))
    ensures value.None? ==> res == (Raised(AttributeError("Cannot delete data threshold")), j)
    ensures value.Some? && !IsPyInt(value.value) ==> res == (Raised(TypeError("Data threshold must be an int")), j)
    ensures value.Some? && IsPyInt(value.value) && j.None? ==> res == (Raised(OSError(EINVAL, None)), None)
    ensures value.Some? && AsLong(value.value).Ok? && j.Some? ==>
      res == (Passed(0), Some(j.value.(threshold := PyIntValue(value.value) % TWO_64)))
    ensures res.0.Passed? ==> res.1.Some? && res.1.value.threshold as int % TWO_64 == PyIntValue(value.value) % TWO_64
  {
    match value
    case None => (Raised(AttributeError("Cannot delete data threshold")), j)
    case Some(o) =>
      if !IsPyInt(o) then (Raised(TypeError("Data threshold must be an int")), j)
      else
        var n := AsLong(o);
        var size: uint64 := if n.Ok? then n.value % TWO_64 else UINT64_MAX;
        match j
        case None => (SetError(-EINVAL, None, None), None)
        case Some(jr) => (if n.Ok? then Passed(0) else Raised(n.error), Some(jr.(threshold := size)))
  }

  // ------------------------------------------------- lifecycle and lookups

  /** `get` on an entry whose record for `field` is `field=value` returns `value`. */
  lemma GetFindsValue(j: Option<Journal>, field: string, value: Bytes)
    requires '\0' !in field
    requires GetData(j, Utf8.Encode(field)) == Ok(Utf8.Encode(field) + [EQ] + value)
    ensures EntryValue(j, field) == Ok(value)
  {
    var f := Utf8.Encode(field);
    var rec := f + [EQ] + value;
    assert FieldValid(f);
    assert !FieldByte(EQ);
    assert EQ !in f;
    SplitJoin(f, value);
  }
}
