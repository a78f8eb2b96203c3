/**
 * The journal engine behind a `sd_journal *` handle, as far as the reader
 * binding (src/systemd/_reader.c) relies on it. The engine belongs to
 * libsystemd and is not part of this model's source; it is kept small
 * here: a sequence of entries, each a sequence of raw `NAME=VALUE` records,
 * a read position, and the few pieces of state the binding queries.
 *
 * Every call on a NULL handle (a closed reader) returns -EINVAL, which is
 * how libsystemd guards its entry points; the model writes that as `None`.
 */
module Engine {
  import opened Base

  type uint64 = x: int | 0 <= x <= UINT64_MAX

  /** One journal entry: its records in storage order and its metadata. */
  datatype Entry = Entry(
    records: seq<Bytes>,
    realtime: uint64,
    monotonic: uint64,
    bootId: Bytes,
    cursor: Bytes)

  /**
   * The state of an open journal. `pos` counts the entries up to and
   * including the current one: 0 is the head, before the first entry.
   * `unique` holds what a unique-value enumeration yields per field, and
   * `fields` the field names a field enumeration yields, read from
   * `fieldCursor` on.
   */
  datatype Journal = Journal(
    entries: seq<Entry>,
    pos: nat,
    matches: seq<Bytes>,
    threshold: uint64,
    timeout: uint64,
    unique: map<Bytes, seq<Bytes>>,
    fields: seq<Bytes>,
    fieldCursor: nat,
    catalog: map<Bytes, Bytes>)
  {
    predicate HasCurrent()
    {
      1 <= pos <= |entries|
    }

    function Current(): Entry
      requires HasCurrent()
    {
      entries[pos - 1]
    }
  }

  const EQ: byte := 0x3D       // '='
  const UNDERSCORE: byte := 0x5F

  /** A byte allowed in a field name: A-Z, 0-9 or `_`. */
  predicate FieldByte(b: byte)
  {
    (0x41 <= b <= 0x5A) || (0x30 <= b <= 0x39) || b == UNDERSCORE
  }

  /** A field name the engine accepts: 1 to 64 field bytes, not starting with a digit. */
  predicate FieldValid(f: Bytes)
  {
    0 < |f| <= 64 && !(0x30 <= f[0] <= 0x39) && forall i :: 0 <= i < |f| ==> FieldByte(f[i])
  }

  /** A match the engine accepts: `FIELD=value` with a nonempty field, not starting with `__`. */
  predicate MatchValid(m: Bytes)
  {
    |m| >= 2 && !(m[0] == UNDERSCORE && m[1] == UNDERSCORE)
    && exists k :: 0 < k < |m| && m[k] == EQ && forall i :: 0 <= i < k ==> FieldByte(m[i])
  }

  /** The movements the binding asks for. */
  datatype Step = Forward | Backward | ForwardSkip(n: nat) | BackwardSkip(n: nat)

  /**
   * How many entries a movement passes over, and the position it reaches.
   * A skip count above INT_MAX is refused with -ERANGE and nothing moves,
   * as libsystemd's `sd_journal_next_skip`/`sd_journal_previous_skip` do.
   */
  function Move(jr: Journal, s: Step): (res: (int, Journal))
    ensures res.1 == jr.(pos := res.1.pos)
    ensures res.0 < 0 <==> (s.ForwardSkip? || s.BackwardSkip?) && s.n > INT_MAX
    ensures res.0 < 0 ==> res == (-ERANGE, jr)
    ensures res.0 >= 0 && (s.Forward? || s.ForwardSkip?) ==> res.1.pos == jr.pos + res.0
    ensures res.0 >= 0 && (s.Backward? || s.BackwardSkip?) ==> res.1.pos + res.0 == jr.pos
    ensures s.Forward? || s.Backward? ==> res.0 <= 1
    ensures s.ForwardSkip? || s.BackwardSkip? ==> res.0 <= s.n
  {
    var ahead := if jr.pos < |jr.entries| then |jr.entries| - jr.pos else 0;
    var behind := if jr.pos > 1 then jr.pos - 1 else 0;
    var n := match s
      case Forward => 1
      case Backward => 1
      case ForwardSkip(k) => k
      case BackwardSkip(k) => k;
    if n > INT_MAX then (-ERANGE, jr)
    else if s.Forward? || s.ForwardSkip? then
      var k := if n < ahead then n else ahead;
      (k, jr.(pos := jr.pos + k))
    else
      var k := if n < behind then n else behind;
      (k, jr.(pos := jr.pos - k))
  }

  /** The first record of `rs` that starts with `prefix`. */
  function FindRecord(rs: seq<Bytes>, prefix: Bytes): (r: Option<Bytes>)
    ensures r.Some? ==> r.value in rs && |prefix| <= |r.value| && r.value[..|prefix|] == prefix
    ensures r.None? ==> forall x :: x in rs ==> !(|prefix| <= |x| && x[..|prefix|] == prefix)
  {
    if rs == [] then None
    else if |prefix| <= |rs[0]| && rs[0][..|prefix|] == prefix then Some(rs[0])
    else FindRecord(rs[1..], prefix)
  }

  /** sd_journal_get_data: the whole `FIELD=value` record of the current entry. */
  function GetData(j: Option<Journal>, field: Bytes): (r: Result<Bytes, int>)
    ensures r.Err? ==> r.error in {-EINVAL, -EADDRNOTAVAIL, -ENOENT}
    ensures r.Ok? ==> |r.value| > |field| && r.value[..|field| + 1] == field + [EQ]
    ensures r.Ok? ==> j.Some? && j.value.HasCurrent() && r.value in j.value.Current().records
    ensures r.Ok? ==> FieldValid(field)
  {
    match j
    case None => Err(-EINVAL)
    case Some(jr) =>
      if !FieldValid(field) then Err(-EINVAL)
      else if !jr.HasCurrent() then Err(-EADDRNOTAVAIL)
      else match FindRecord(jr.Current().records, field + [EQ])
        case None => Err(-ENOENT)
        case Some(rec) => Ok(rec)
  }

  /** What SD_JOURNAL_FOREACH_DATA yields: the current entry's records, or nothing. */
  function Data(j: Option<Journal>): seq<Bytes>
  {
    if j.Some? && j.value.HasCurrent() then j.value.Current().records else []
  }

  /** sd_journal_add_match. */
  function AddMatch(jr: Journal, m: Bytes): (res: (int, Journal))
    ensures res.0 == 0 <==> MatchValid(m)
    ensures res.0 == 0 ==> res.1 == jr.(matches := jr.matches + [m])
    ensures res.0 != 0 ==> res.0 == -EINVAL && res.1 == jr
  {
    if MatchValid(m) then (0, jr.(matches := jr.matches + [m])) else (-EINVAL, jr)
  }

  /** sd_journal_query_unique: whether the field name is accepted. */
  function QueryUnique(j: Option<Journal>, field: Bytes): (r: int)
    ensures r == 0 <==> j.Some? && FieldValid(field)
    ensures r != 0 ==> r == -EINVAL
  {
    if j.Some? && FieldValid(field) then 0 else -EINVAL
  }

  /** What SD_JOURNAL_FOREACH_UNIQUE yields after a successful query of `field`. */
  function UniqueRecords(jr: Journal, field: Bytes): seq<Bytes>
  {
    if field in jr.unique then jr.unique[field] else []
  }

  /** sd_journal_restart_fields: enumeration starts again from the first name. */
  function RestartFields(j: Option<Journal>): Option<Journal>
  {
    match j
    case None => None
    case Some(jr) => Some(jr.(fieldCursor := 0))
  }

  /** sd_journal_enumerate_fields: 1 and the next name, 0 at the end. */
  function EnumerateField(j: Option<Journal>): (res: (int, Bytes, Option<Journal>))
    ensures j.None? ==> res == (-EINVAL, [], None)
    ensures j.Some? ==> (res.0 == 1 <==> j.value.fieldCursor < |j.value.fields|)
    ensures j.Some? && res.0 == 1 ==>
      (res.1 == j.value.fields[j.value.fieldCursor]
       && res.2 == Some(j.value.(fieldCursor := j.value.fieldCursor + 1)))
    ensures j.Some? && res.0 != 1 ==> res.0 == 0 && res.2 == j
  {
    match j
    case None => (-EINVAL, [], None)
    case Some(jr) =>
      if jr.fieldCursor < |jr.fields| then
        (1, jr.fields[jr.fieldCursor], Some(jr.(fieldCursor := jr.fieldCursor + 1)))
      else (0, [], j)
  }

  /** `MESSAGE_ID` as bytes. */
  const MESSAGE_ID: Bytes := [0x4D, 0x45, 0x53, 0x53, 0x41, 0x47, 0x45, 0x5F, 0x49, 0x44]

  /** sd_journal_get_catalog: the catalog text for the current entry's MESSAGE_ID. */
  function GetCatalog(j: Option<Journal>): (r: Result<Bytes, int>)
    ensures r.Err? ==> r.error < 0
    ensures r.Ok? ==> GetData(j, MESSAGE_ID).Ok?
  {
    match GetData(j, MESSAGE_ID)
    case Err(e) => Err(e)
    case Ok(rec) =>
      var id := rec[|MESSAGE_ID| + 1..];
      if id in j.value.catalog then Ok(j.value.catalog[id]) else Err(-ENOENT)
  }
}
