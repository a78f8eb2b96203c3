/**
 * src/systemd/util.c: `safe_atou`, the strict unsigned parser built on C's
 * `strtoul`, and `parse_sockaddr`/`assign_address`, which fill a caller's
 * `union sockaddr_union` and address length from a textual socket address.
 *
 * C strings are modelled as Dafny strings without NUL: every caller gets them
 * from Python through the `"s"` format, which refuses embedded NUL and encodes
 * as UTF-8. The delimiters looked for (`[`, `]`, `:`, digits, spaces) are ASCII
 * and UTF-8 never puts an ASCII byte inside a multi-byte character, so
 * scanning characters finds what scanning bytes finds; only `strlen` counts
 * bytes, and the model counts the encoded length there.
 */
module Util {
  import opened Base
  import Utf8

  // ---------------------------------------------------------------- strtoul

  /** isspace() in the C locale. */
  predicate IsCSpace(c: char)
  {
    c == ' ' || ('\t' <= c <= '\r')
  }

  /** The value of `c` as a digit of `base`, or -1 when it is not one. */
  function DigitIn(c: char, base: nat): (d: int)
    requires 2 <= base <= 36
    ensures -1 <= d < base
    ensures base == 10 ==> (d >= 0 <==> IsDigit(c))
    ensures IsDigit(c) && c as int - '0' as int < base ==> d == c as int - '0' as int
  {
    var v :=
      if '0' <= c <= '9' then c as int - '0' as int
      else if 'a' <= c <= 'z' then c as int - 'a' as int + 10
      else if 'A' <= c <= 'Z' then c as int - 'A' as int + 10
      else 36;
    if v < base then v else -1
  }

  function SkipSpaces(s: string, i: nat): (j: nat)
    requires i <= |s|
    ensures i <= j <= |s|
    ensures forall k :: i <= k < j ==> IsCSpace(s[k])
    ensures j < |s| ==> !IsCSpace(s[j])
    decreases |s| - i
  {
    if i < |s| && IsCSpace(s[i]) then SkipSpaces(s, i + 1) else i
  }

  /** The end of the run of `base` digits that starts at `i`. */
  function DigitRunEnd(s: string, i: nat, base: nat): (j: nat)
    requires i <= |s| && 2 <= base <= 36
    ensures i <= j <= |s|
    ensures forall k :: i <= k < j ==> DigitIn(s[k], base) >= 0
    ensures j < |s| ==> DigitIn(s[j], base) < 0
    decreases |s| - i
  {
    if i < |s| && DigitIn(s[i], base) >= 0 then DigitRunEnd(s, i + 1, base) else i
  }

  /** The number the digits `s[i..j]` denote in `base`. */
  function RunValue(s: string, i: nat, j: nat, base: nat): nat
    requires i <= j <= |s| && 2 <= base <= 36
    requires forall k :: i <= k < j ==> DigitIn(s[k], base) >= 0
    decreases j - i
  {
    if j == i then 0 else RunValue(s, i, j - 1, base) * base + DigitIn(s[j - 1], base)
  }

  /** What strtoul(s, &end, 0) returns, where `end` points, and whether it set ERANGE. */
  datatype Conversion = Conversion(value: nat, end: nat, overflow: bool)

  /**
   * strtoul with base 0 (glibc): leading white space, an optional sign, then
   * `0x`/`0X` and hexadecimal digits, `0` and octal digits, or decimal
   * digits. No digits: value 0 and `end` at the start of the string. Out of
   * range: ULONG_MAX and ERANGE. A minus sign negates modulo 2^64.
   */
  function Strtoul(s: string): (c: Conversion)
    ensures c.end <= |s|
    ensures c.value <= ULONG_MAX
    ensures c.overflow ==> c.end > 0
  {
    var i := SkipSpaces(s, 0);
    var negative := i < |s| && s[i] == '-';
    var k := if i < |s| && (s[i] == '-' || s[i] == '+') then i + 1 else i;
    var hex := k + 2 < |s| && s[k] == '0' && (s[k + 1] == 'x' || s[k + 1] == 'X') && DigitIn(s[k + 2], 16) >= 0;
    var base := if hex then 16 else if k < |s| && s[k] == '0' then 8 else 10;
    var start := if hex then k + 2 else k;
    var j := DigitRunEnd(s, start, base);
    if j == start then Conversion(0, 0, false)
    else
      var v := RunValue(s, start, j, base);
      if v > ULONG_MAX then Conversion(ULONG_MAX, j, true)
      else Conversion(if negative then (TWO_64 - v) % TWO_64 else v, j, false)
  }

  /**
   * safe_atou: the whole string must be one number accepted by strtoul, with
   * no minus sign in front and small enough for an `unsigned`. Range errors
   * reported by strtoul come first, then EINVAL for a string that is empty,
   * has no digits or has trailing characters, then ERANGE for the sign and
   * for values above UINT_MAX.
   */
  function SafeAtou(s: string): (r: Result<nat, int>)
    ensures r.Ok? ==> r.value <= UINT_MAX && |s| > 0 && s[0] != '-'
    ensures r.Ok? ==> Strtoul(s) == Conversion(r.value, |s|, false)
    ensures r.Err? ==> r.error == -EINVAL || r.error == -ERANGE
    ensures r == Err(-EINVAL) <==> !Strtoul(s).overflow && (Strtoul(s).end == 0 || Strtoul(s).end != |s|)
    ensures !Strtoul(s).overflow && 0 < Strtoul(s).end == |s| && s[0] != '-' && Strtoul(s).value <= UINT_MAX ==>
      r == Ok(Strtoul(s).value)
  {
    var c := Strtoul(s);
    if c.overflow then Err(-ERANGE)
    else if c.end == 0 || c.end != |s| then Err(-EINVAL)
    else if s[0] == '-' then Err(-ERANGE)
    else if c.value > UINT_MAX then Err(-ERANGE)
    else Ok(c.value)
  }

  lemma {:induction false} RunValueDecimal(s: string, j: nat)
    requires j <= |s| && AllDigits(s)
    ensures forall k :: 0 <= k < j ==> DigitIn(s[k], 10) >= 0
    ensures RunValue(s, 0, j, 10) == DigitsValue(s[..j])
  {
    if j > 0 {
      RunValueDecimal(s, j - 1);
      assert s[..j][..j - 1] == s[..j - 1];
    }
  }

  lemma DecimalRun(s: string)
    requires |s| >= 1 && AllDigits(s)
    ensures DigitRunEnd(s, 0, 10) == |s|
    ensures forall k :: 0 <= k < |s| ==> DigitIn(s[k], 10) >= 0
    ensures RunValue(s, 0, |s|, 10) == DigitsValue(s)
  {
    RunValueDecimal(s, |s|);
    assert s[..|s|] == s;
  }

  lemma OctalZero()
    ensures Strtoul("0") == Conversion(0, 1, false)
  {
    assert DigitRunEnd("0", 0, 8) == 1;
  }

  /** The decimal rendering of any `unsigned` value parses back to it. */
  lemma SafeAtouDecimal(n: nat)
    requires n <= UINT_MAX
    ensures SafeAtou(NatText(n)) == Ok(n)
  {
    var s := NatText(n);
    NatTextDenotes(n);
    if n == 0 {
      assert s == "0";
      OctalZero();
    } else {
      assert SkipSpaces(s, 0) == 0;
      DecimalRun(s);
    }
  }

  /** A rendering of a number too large for an `unsigned` is a range error. */
  lemma SafeAtouTooLarge(n: nat)
    requires n > UINT_MAX
    ensures SafeAtou(NatText(n)) == Err(-ERANGE)
  {
    var s := NatText(n);
    NatTextDenotes(n);
    assert SkipSpaces(s, 0) == 0;
    DecimalRun(s);
  }

  /** A minus sign in front is a range error, whatever the number. */
  lemma SafeAtouNegative(n: nat)
    ensures SafeAtou("-" + NatText(n)) == Err(-ERANGE)
  {
    var t := NatText(n);
    var s := "-" + t;
    NatTextDenotes(n);
    assert SkipSpaces(s, 0) == 0;
    if n == 0 {
      assert s == "-0";
      assert DigitRunEnd(s, 1, 8) == 2;
    } else {
      DecimalRun(t);
      RunShift(t, 10);
    }
  }

  /** Digit runs and their values do not change when text is put in front. */
  lemma RunShift(t: string, base: nat)
    requires |t| >= 1 && 2 <= base <= 36
    requires forall k :: 0 <= k < |t| ==> DigitIn(t[k], base) >= 0
    ensures DigitRunEnd("-" + t, 1, base) == |t| + 1
    ensures RunValue("-" + t, 1, |t| + 1, base) == RunValue(t, 0, |t|, base)
  {
    var s := "-" + t;
    DigitRunShift(t, base, 0);
    RunValueShift(t, base, |t|);
  }

  lemma {:induction false} DigitRunShift(t: string, base: nat, i: nat)
    requires i <= |t| && 2 <= base <= 36
    requires forall k :: 0 <= k < |t| ==> DigitIn(t[k], base) >= 0
    ensures DigitRunEnd("-" + t, i + 1, base) == |t| + 1
    decreases |t| - i
  {
    if i < |t| {
      assert ("-" + t)[i + 1] == t[i];
      DigitRunShift(t, base, i + 1);
    }
  }

  lemma {:induction false} RunValueShift(t: string, base: nat, j: nat)
    requires j <= |t| && 2 <= base <= 36
    requires forall k :: 0 <= k < |t| ==> DigitIn(t[k], base) >= 0
    ensures forall k :: 1 <= k < j + 1 ==> DigitIn(("-" + t)[k], base) >= 0
    ensures RunValue("-" + t, 1, j + 1, base) == RunValue(t, 0, j, base)
  {
    if j > 0 {
      RunValueShift(t, base, j - 1);
      assert ("-" + t)[j] == t[j - 1];
    }
  }

  /** A `0x` prefix selects hexadecimal. */
  lemma SafeAtouHex()
    ensures SafeAtou("0x1F") == Ok(31)
  {
    var s := "0x1F";
    assert SkipSpaces(s, 0) == 0;
    assert DigitIn(s[2], 16) == 1;
    assert DigitRunEnd(s, 4, 16) == 4;
    assert DigitRunEnd(s, 2, 16) == 4;
    assert RunValue(s, 2, 3, 16) == 1;
    assert RunValue(s, 2, 4, 16) == 31;
    assert Strtoul(s) == Conversion(31, 4, false);
  }

  /** A leading `0` selects octal. */
  lemma SafeAtouOctal()
    ensures SafeAtou("010") == Ok(8)
  {
    StrtoulOctal();
  }

  lemma StrtoulOctal()
    ensures Strtoul("010") == Conversion(8, 3, false)
  {
    var s := "010";
    assert SkipSpaces(s, 0) == 0;
    assert DigitIn('0', 8) == 0 && DigitIn('1', 8) == 1;
    assert DigitRunEnd(s, 3, 8) == 3;
    assert DigitRunEnd(s, 2, 8) == 3;
    assert DigitRunEnd(s, 1, 8) == 3;
    assert DigitRunEnd(s, 0, 8) == 3;
    assert RunValue(s, 0, 1, 8) == 0;
    assert RunValue(s, 0, 2, 8) == 1;
    assert RunValue(s, 0, 3, 8) == 8;
  }

  /** Leading white space is skipped by strtoul and so accepted. */
  lemma SafeAtouLeadingSpace()
    ensures SafeAtou(" 42") == Ok(42)
  {
    assert SkipSpaces(" 42", 0) == 1;
    assert DigitRunEnd(" 42", 1, 10) == 3;
    assert RunValue(" 42", 1, 3, 10) == 42;
  }

  /** The empty string has no digits: EINVAL. */
  lemma SafeAtouEmpty()
    ensures SafeAtou("") == Err(-EINVAL)
  {
    assert SkipSpaces("", 0) == 0;
  }

  /** Trailing characters after the digits: EINVAL. */
  lemma SafeAtouTrailing()
    ensures SafeAtou("12a") == Err(-EINVAL)
  {
    assert SkipSpaces("12a", 0) == 0;
    assert DigitRunEnd("12a", 2, 10) == 2;
    assert DigitRunEnd("12a", 0, 10) == 2;
    assert Strtoul("12a").end == 2;
  }

  /** `0x` without hexadecimal digits is a `0` followed by junk: EINVAL. */
  lemma SafeAtouBareHexPrefix()
    ensures SafeAtou("0x") == Err(-EINVAL)
  {
    assert SkipSpaces("0x", 0) == 0;
    assert DigitRunEnd("0x", 1, 8) == 1;
    assert DigitRunEnd("0x", 0, 8) == 1;
    assert Strtoul("0x").end == 1;
  }

  // -------------------------------------------------------- socket addresses

  const AF_INET: int := 2
  const AF_INET6: int := 10
  const SIZEOF_SOCKADDR_IN: nat := 16
  const SIZEOF_SOCKADDR_IN6: nat := 28
  const IF_NAMESIZE: nat := 16

  /** The two bytes htobe16 stores, in memory order. */
  function Htobe16(p: nat): (b: Bytes)
    requires p <= UINT16_MAX
    ensures |b| == 2 && Be16(b) == p
  {
    [(p / 256) as byte, (p % 256) as byte]
  }

  /** The port a two-byte network-order field holds. */
  function Be16(b: Bytes): nat
    requires |b| == 2
  {
    b[0] as nat * 256 + b[1] as nat
  }

  function Zeros(n: nat): (z: Bytes)
    ensures |z| == n && forall i :: 0 <= i < n ==> z[i] == 0
  {
    seq(n, _ => 0 as byte)
  }

  /** in6addr_any and INADDR_ANY. */
  const IN6ADDR_ANY: Bytes := Zeros(16)
  const INADDR_ANY: Bytes := Zeros(4)

  /** What inet_pton returns: 1 with the address, 0 for text that is not one, -1 with errno. */
  datatype Pton = Converted(addr: Bytes) | NotAnAddress | PtonFailed(errno: PositiveErrno)

  /**
   * The host services parse_sockaddr consults: inet_pton for each family,
   * if_nametoindex (0 for an unknown name) and whether /proc/net/if_inet6
   * exists.
   */
  datatype Host = Host(
    pton4: string -> Pton,
    pton6: string -> Pton,
    nameToIndex: string -> nat,
    ipv6Supported: bool)

  /** strchr: the first index at or after `from` holding `c`. */
  function Find(s: string, c: char, from: nat): (r: Option<nat>)
    requires from <= |s|
    ensures r.Some? ==> from <= r.value < |s| && s[r.value] == c
    ensures r.Some? ==> forall k :: from <= k < r.value ==> s[k] != c
    ensures r.None? ==> forall k :: from <= k < |s| ==> s[k] != c
    decreases |s| - from
  {
    if from == |s| then None else if s[from] == c then Some(from) else Find(s, c, from + 1)
  }

  lemma {:induction false} FindFirst(s: string, c: char, from: nat, at: nat)
    requires from <= at < |s| && s[at] == c
    requires forall k :: from <= k < at ==> s[k] != c
    ensures Find(s, c, from) == Some(at)
    decreases at - from
  {
    if from < at {
      FindFirst(s, c, from + 1, at);
    }
  }

  /** The fields of the union (and the caller's length) that a call writes. */
  datatype Writes = Writes(
    family: Option<int>,
    port: Option<nat>,
    addr4: Option<Bytes>,
    addr6: Option<Bytes>,
    scopeId: Option<nat>,
    len: Option<nat>)

  const NoWrites: Writes := Writes(None, None, None, None, None, None)

  /** Nothing but possibly the IPv6 address was written. */
  predicate Untouched(w: Writes)
  {
    w.family.None? && w.port.None? && w.addr4.None? && w.scopeId.None? && w.len.None?
  }

  /** A family was set, with the matching structure length and an address. */
  predicate Complete(w: Writes)
  {
    (w.family == Some(AF_INET) && w.len == Some(SIZEOF_SOCKADDR_IN) && w.addr4.Some?)
    || (w.family == Some(AF_INET6) && w.len == Some(SIZEOF_SOCKADDR_IN6) && w.addr6.Some?)
  }

  /** The C return code, and what was written on the way to it. */
  datatype Outcome = Outcome(code: int, writes: Writes)

  /**
   * assign_address: an IPv4 literal with the port, or else an interface
   * name of at most IF_NAMESIZE-1 bytes, meaning the IPv6 wildcard address
   * scoped to that interface.
   */
  function AssignAddressSpec(s: string, port: nat, host: Host): (o: Outcome)
    requires port <= UINT16_MAX
    ensures o.writes.port.Some? ==> o.writes.port.value == port
    ensures o.code != 0 ==> o.code < 0 && o.writes == NoWrites
    ensures o.code == 0 ==> Complete(o.writes) && o.writes.port == Some(port)
    ensures o.code == 0 && o.writes.family == Some(AF_INET) ==> host.pton4(s).Converted?
    ensures o.code == 0 && o.writes.family == Some(AF_INET6) ==>
      o.writes.scopeId == Some(host.nameToIndex(s)) && host.nameToIndex(s) != 0
    ensures host.pton4(s).PtonFailed? ==> o.code == -(host.pton4(s).errno as int)
    ensures host.pton4(s).Converted? ==>
      o.code == 0 && o.writes.family == Some(AF_INET) && o.writes.addr4 == Some(host.pton4(s).addr)
    ensures host.pton4(s).NotAnAddress? ==>
      (o.code == 0 <==> |Utf8.Encode(s)| <= IF_NAMESIZE - 1 && host.nameToIndex(s) != 0)
    ensures host.pton4(s).NotAnAddress? && o.code != 0 ==> o.code == -EINVAL
    ensures host.pton4(s).NotAnAddress? && o.code == 0 ==>
      o.writes.family == Some(AF_INET6) && o.writes.addr6 == Some(IN6ADDR_ANY)
  {
    match host.pton4(s)
    case PtonFailed(e) => Outcome(-(e as int), NoWrites)
    case Converted(a) =>
      Outcome(0, Writes(Some(AF_INET), Some(port), Some(a), None, None, Some(SIZEOF_SOCKADDR_IN)))
    case NotAnAddress =>
      if |Utf8.Encode(s)| > IF_NAMESIZE - 1 then Outcome(-EINVAL, NoWrites)
      else if host.nameToIndex(s) == 0 then Outcome(-EINVAL, NoWrites)
      else Outcome(0, Writes(Some(AF_INET6), Some(port), None, Some(IN6ADDR_ANY),
                             Some(host.nameToIndex(s)), Some(SIZEOF_SOCKADDR_IN6)))
  }

  /** A port taken from the text after a colon: parsed by safe_atou and in 1..65535. */
  function PortOf(s: string): (r: Result<nat, int>)
    ensures r.Ok? ==> 1 <= r.value <= UINT16_MAX && SafeAtou(s) == Ok(r.value)
    ensures r.Err? ==> r.error < 0
    ensures SafeAtou(s).Err? ==> r == Err(SafeAtou(s).error)
    ensures SafeAtou(s).Ok? ==> (r.Ok? <==> 1 <= SafeAtou(s).value <= UINT16_MAX)
    ensures SafeAtou(s).Ok? && r.Err? ==> r.error == -EINVAL
  {
    match SafeAtou(s)
    case Err(e) => Err(e)
    case Ok(u) => if u == 0 || u > 0xFFFF then Err(-EINVAL) else Ok(u)
  }

  /** `[ipv6]` with an optional `:port`. */
  function ParseBracketedSpec(s: string, host: Host): (o: Outcome)
    requires |s| > 0 && s[0] == '['
    ensures o.writes.port.Some? ==> 1 <= o.writes.port.value <= UINT16_MAX
    ensures o.code != 0 ==> o.code < 0 && Untouched(o.writes)
    ensures o.code == 0 ==> Complete(o.writes) && o.writes.family == Some(AF_INET6)
    ensures (forall k :: 1 <= k < |s| ==> s[k] != ']') ==> o == Outcome(-EINVAL, NoWrites)
  {
    match Find(s, ']', 1)
    case None => Outcome(-EINVAL, NoWrites)
    case Some(close) =>
      match host.pton6(s[1..close])
      case NotAnAddress => Outcome(-EINVAL, NoWrites)
      case PtonFailed(e) => Outcome(-(e as int), NoWrites)
      case Converted(a) =>
        var w := NoWrites.(addr6 := Some(a));
        var rest := s[close + 1..];
        if rest == [] then
          Outcome(0, w.(family := Some(AF_INET6), len := Some(SIZEOF_SOCKADDR_IN6)))
        else if rest[0] != ':' then Outcome(-EINVAL, w)
        else
          match PortOf(rest[1..])
          case Err(e) => Outcome(e, w)
          case Ok(u) =>
            Outcome(0, w.(port := Some(u), family := Some(AF_INET6), len := Some(SIZEOF_SOCKADDR_IN6)))
  }

  /** `host:port`: the port after the first colon, then assign_address on the host. */
  function ParseHostPortSpec(s: string, colon: nat, host: Host): (o: Outcome)
    requires colon < |s|
    ensures o.writes.port.Some? ==> 1 <= o.writes.port.value <= UINT16_MAX
    ensures o.code != 0 ==> o.code < 0 && o.writes == NoWrites
    ensures o.code == 0 ==> Complete(o.writes)
  {
    match PortOf(s[colon + 1..])
    case Err(e) => Outcome(e, NoWrites)
    case Ok(u) => AssignAddressSpec(s[..colon], u, host)
  }

  /** No brackets and no colon: a bare port, or else a host with port 0. */
  function ParseBareSpec(s: string, host: Host): (o: Outcome)
    ensures o.writes.port.Some? ==> o.writes.port.value <= UINT16_MAX
    ensures o.code != 0 ==> o.code < 0 && o.writes == NoWrites
    ensures o.code == 0 ==> Complete(o.writes)
  {
    match SafeAtou(s)
    case Err(_) => AssignAddressSpec(s, 0, host)
    case Ok(u) =>
      if u == 0 || u > 0xFFFF then Outcome(-EINVAL, NoWrites)
      else if host.ipv6Supported then
        Outcome(0, Writes(Some(AF_INET6), Some(u), None, Some(IN6ADDR_ANY), None, Some(SIZEOF_SOCKADDR_IN6)))
      else
        Outcome(0, Writes(Some(AF_INET), Some(u), Some(INADDR_ANY), None, None, Some(SIZEOF_SOCKADDR_IN)))
  }

  /**
   * parse_sockaddr: `[ipv6]` with an optional `:port`; `host:port` with an
   * IPv4 literal or interface name as host; a bare port, meaning the
   * wildcard address of IPv6 when the host supports it and of IPv4
   * otherwise; or a bare IPv4 literal or interface name with port 0.
   * A failure returns a negative errno and sets neither the family nor the
   * length; a success sets a family with its matching length.
   */
  function ParseSpec(s: string, host: Host): (o: Outcome)
    ensures o.writes.port.Some? ==> o.writes.port.value <= UINT16_MAX
    ensures o.code != 0 ==> o.code < 0 && Untouched(o.writes)
    ensures o.code == 0 ==> Complete(o.writes)
    ensures |s| > 0 && s[0] == '[' && (forall k :: 1 <= k < |s| ==> s[k] != ']') ==>
      o == Outcome(-EINVAL, NoWrites)
  {
    if |s| > 0 && s[0] == '[' then ParseBracketedSpec(s, host)
    else match Find(s, ':', 0)
      case Some(colon) => ParseHostPortSpec(s, colon, host)
      case None => ParseBareSpec(s, host)
  }

  /** A snapshot of a union and its length. */
  datatype Snapshot = Snapshot(
    family: int, port: Bytes, addr4: Bytes, addr6: Bytes, scopeId: nat, len: nat)

  /** The snapshot after the writes `w`. */
  function Apply(before: Snapshot, w: Writes): Snapshot
    requires w.port.Some? ==> w.port.value <= UINT16_MAX
  {
    Snapshot(
      w.family.GetOr(before.family),
      if w.port.Some? then Htobe16(w.port.value) else before.port,
      w.addr4.GetOr(before.addr4),
      w.addr6.GetOr(before.addr6),
      w.scopeId.GetOr(before.scopeId),
      w.len.GetOr(before.len))
  }

  /**
   * `union sockaddr_union` (sockaddr_in and sockaddr_in6 over the same
   * storage) together with the `unsigned addr_len` its caller keeps beside
   * it. The IPv4 address and the IPv6 flow label share storage in C; the
   * model keeps them apart (no path reads one after writing the other).
   */
  class SockaddrUnion {
    var family: int
    var port: Bytes
    var addr4: Bytes
    var addr6: Bytes
    var scopeId: nat
    var flowinfo: int
    var len: nat

    function State(): Snapshot
      reads this
    {
      Snapshot(family, port, addr4, addr6, scopeId, len)
    }

    /** `union sockaddr_union addr = {};` */
    constructor ()
      ensures State() == Snapshot(0, Zeros(2), Zeros(4), Zeros(16), 0, 0) && flowinfo == 0
    {
      family, port, addr4, addr6, scopeId, flowinfo, len := 0, Zeros(2), Zeros(4), Zeros(16), 0, 0, 0;
    }

    method AssignAddress(s: string, p: nat, host: Host) returns (r: int)
      requires p <= UINT16_MAX
      modifies this
      ensures r == AssignAddressSpec(s, p, host).code
      ensures State() == Apply(old(State()), AssignAddressSpec(s, p, host).writes)
      ensures flowinfo == old(flowinfo)
    {
      var res := host.pton4(s);
      if res.PtonFailed? {
        return -(res.errno as int);
      }
      if res.Converted? {
        addr4 := res.addr;
        family := AF_INET;
        port := Htobe16(p);
        len := SIZEOF_SOCKADDR_IN;
      } else {
        if |Utf8.Encode(s)| > IF_NAMESIZE - 1 {
          return -EINVAL;
        }
        var idx := host.nameToIndex(s);
        if idx == 0 {
          return -EINVAL;
        }
        family := AF_INET6;
        port := Htobe16(p);
        scopeId := idx;
        addr6 := IN6ADDR_ANY;
        len := SIZEOF_SOCKADDR_IN6;
      }
      return 0;
    }

    method Parse(s: string, host: Host) returns (r: int)
      modifies this
      ensures r == ParseSpec(s, host).code
      ensures State() == Apply(old(State()), ParseSpec(s, host).writes)
      ensures flowinfo == old(flowinfo)
    {
      if |s| > 0 && s[0] == '[' {
        r := ParseBracketed(s, host);
      } else {
        var e := Find(s, ':', 0);
        if e.Some? {
          r := ParseHostPort(s, e.value, host);
        } else {
          r := ParseBare(s, host);
        }
      }
    }

    /** `[address]` or `[address]:port`. */
    method ParseBracketed(s: string, host: Host) returns (r: int)
      requires |s| > 0 && s[0] == '['
      modifies this
      ensures r == ParseBracketedSpec(s, host).code
      ensures State() == Apply(old(State()), ParseBracketedSpec(s, host).writes)
      ensures flowinfo == old(flowinfo)
    {
      var e := Find(s, ']', 1);
      if e.None? {
        return -EINVAL;
      }
      var res := host.pton6(s[1..e.value]);
      if !res.Converted? {
        // errno is left at 0 when inet_pton only reports "not an address"
        return if res.PtonFailed? then -(res.errno as int) else -EINVAL;
      }
      addr6 := res.addr;
      var rest := s[e.value + 1..];
      if rest != [] {
        if rest[0] != ':' {
          return -EINVAL;
        }
        // safe_atou, then the 1..65535 range check
        var u := PortOf(rest[1..]);
        if u.Err? {
          return u.error;
        }
        port := Htobe16(u.value);
      }
      family := AF_INET6;
      len := SIZEOF_SOCKADDR_IN6;
      return 0;
    }

    /** `host:port`, split at the first colon. */
    method ParseHostPort(s: string, colon: nat, host: Host) returns (r: int)
      requires colon < |s|
      modifies this
      ensures r == ParseHostPortSpec(s, colon, host).code
      ensures State() == Apply(old(State()), ParseHostPortSpec(s, colon, host).writes)
      ensures flowinfo == old(flowinfo)
    {
      var u := SafeAtou(s[colon + 1..]);
      if u.Err? {
        return u.error;
      }
      if u.value <= 0 || u.value > 0xFFFF {
        return -EINVAL;
      }
      r := AssignAddress(s[..colon], u.value, host);
    }

    /** A port alone, or an address or interface name alone. */
    method ParseBare(s: string, host: Host) returns (r: int)
      modifies this
      ensures r == ParseBareSpec(s, host).code
      ensures State() == Apply(old(State()), ParseBareSpec(s, host).writes)
      ensures flowinfo == old(flowinfo)
    {
      var u := SafeAtou(s);
      if u.Err? {
        r := AssignAddress(s, 0, host);
        return;
      }
      if u.value <= 0 || u.value > 0xFFFF {
        return -EINVAL;
      }
      if host.ipv6Supported {
        family := AF_INET6;
        port := Htobe16(u.value);
        addr6 := IN6ADDR_ANY;
        len := SIZEOF_SOCKADDR_IN6;
      } else {
        family := AF_INET;
        port := Htobe16(u.value);
        addr4 := INADDR_ANY;
        len := SIZEOF_SOCKADDR_IN;
      }
      return 0;
    }
  }

  // ------------------------------------------------- properties of the parser

  /** In `[a]tail` the first `]` closes `a`. */
  lemma BracketSplit(a: string, tail: string)
    requires ']' !in a
    ensures var s := "[" + a + "]" + tail;
      Find(s, ']', 1) == Some(|a| + 1) && s[1..|a| + 1] == a && s[|a| + 2..] == tail
  {
    var s := "[" + a + "]" + tail;
    assert forall k :: 1 <= k < |a| + 1 ==> s[k] == a[k - 1];
    FindFirst(s, ']', 1, |a| + 1);
    assert s[1..|a| + 1] == a;
    assert s[|a| + 2..] == tail;
  }

  /** `[addr]:port` yields that IPv6 address and port. */
  lemma ParseBracketedPort(a: string, p: nat, host: Host)
    requires ']' !in a && 1 <= p <= UINT16_MAX
    requires host.pton6(a).Converted?
    ensures ParseSpec("[" + a + "]:" + NatText(p), host)
      == Outcome(0, Writes(Some(AF_INET6), Some(p), None, Some(host.pton6(a).addr), None, Some(SIZEOF_SOCKADDR_IN6)))
  {
    var tail := ":" + NatText(p);
    var s := "[" + a + "]" + tail;
    assert s == "[" + a + "]:" + NatText(p);
    BracketSplit(a, tail);
    assert tail[1..] == NatText(p);
    SafeAtouDecimal(p);
    assert PortOf(tail[1..]) == Ok(p);
    assert ParseSpec(s, host) == ParseBracketedSpec(s, host);
  }

  /** `[addr]` without a port keeps the port already in the union. */
  lemma ParseBracketedNoPort(a: string, host: Host)
    requires ']' !in a
    requires host.pton6(a).Converted?
    ensures ParseSpec("[" + a + "]", host)
      == Outcome(0, Writes(Some(AF_INET6), None, None, Some(host.pton6(a).addr), None, Some(SIZEOF_SOCKADDR_IN6)))
  {
    var s := "[" + a + "]" + "";
    assert s == "[" + a + "]";
    BracketSplit(a, "");
  }

  /** `host:port` with an IPv4 literal yields that IPv4 address and port. */
  lemma ParseHostPort(h: string, p: nat, host: Host)
    requires ':' !in h && (|h| == 0 || h[0] != '[') && 1 <= p <= UINT16_MAX
    requires host.pton4(h).Converted?
    ensures ParseSpec(h + ":" + NatText(p), host)
      == Outcome(0, Writes(Some(AF_INET), Some(p), Some(host.pton4(h).addr), None, None, Some(SIZEOF_SOCKADDR_IN)))
  {
    var s := h + ":" + NatText(p);
    assert forall k :: 0 <= k < |h| ==> s[k] == h[k];
    FindFirst(s, ':', 0, |h|);
    assert s[..|h|] == h;
    assert s[|h| + 1..] == NatText(p);
    SafeAtouDecimal(p);
  }

  /** A port outside 1..65535 after the colon is rejected before the host is looked at. */
  lemma ParseHostPortOutOfRange(h: string, p: nat, host: Host)
    requires ':' !in h && (|h| == 0 || h[0] != '[')
    requires p == 0 || UINT16_MAX < p <= UINT_MAX
    ensures ParseSpec(h + ":" + NatText(p), host) == Outcome(-EINVAL, NoWrites)
  {
    var s := h + ":" + NatText(p);
    assert forall k :: 0 <= k < |h| ==> s[k] == h[k];
    FindFirst(s, ':', 0, |h|);
    assert s[|h| + 1..] == NatText(p);
    SafeAtouDecimal(p);
  }

  /**
   * Every `[a]tail`: the bracketed text must be an IPv6 literal, and the
   * tail must be empty or a colon followed by a port in 1..65535; the
   * address is written before the tail is looked at.
   */
  lemma ParseBracketedRules(a: string, tail: string, host: Host)
    requires ']' !in a
    ensures var o := ParseSpec("[" + a + "]" + tail, host);
      && (host.pton6(a).NotAnAddress? ==> o == Outcome(-EINVAL, NoWrites))
      && (host.pton6(a).PtonFailed? ==> o == Outcome(-(host.pton6(a).errno as int), NoWrites))
      && (host.pton6(a).Converted? && tail != [] && tail[0] != ':' ==> o.code == -EINVAL)
      && (host.pton6(a).Converted? && tail != [] && tail[0] == ':' && PortOf(tail[1..]).Err? ==>
            o.code == PortOf(tail[1..]).error)
      && (o.code == 0 <==>
            host.pton6(a).Converted? && (tail == [] || (tail[0] == ':' && PortOf(tail[1..]).Ok?)))
      && (host.pton6(a).Converted? ==> o.writes.addr6 == Some(host.pton6(a).addr))
      && (o.code == 0 ==>
            o.writes.port == (if tail == [] then None else Some(PortOf(tail[1..]).value)))
  {
    BracketSplit(a, tail);
  }

  /** Every `h:p` with a colon-free host: the port is checked first, then assign_address on `h`. */
  lemma ParseHostPortForm(h: string, p: string, host: Host)
    requires ':' !in h && (|h| == 0 || h[0] != '[')
    ensures ParseSpec(h + ":" + p, host) ==
      match PortOf(p)
      case Err(e) => Outcome(e, NoWrites)
      case Ok(u) => AssignAddressSpec(h, u, host)
  {
    var s := h + ":" + p;
    assert forall k :: 0 <= k < |h| ==> s[k] == h[k];
    FindFirst(s, ':', 0, |h|);
    assert s[..|h|] == h;
    assert s[|h| + 1..] == p;
    if |h| == 0 {
      assert s[0] == ':';
    }
  }

  /**
   * Every text without a colon or a leading bracket: a number must be a
   * port in 1..65535; anything else is an IPv4 literal or an interface
   * name, with port 0.
   */
  lemma ParseBareForm(s: string, host: Host)
    requires ':' !in s && (|s| == 0 || s[0] != '[')
    ensures SafeAtou(s).Err? ==> ParseSpec(s, host) == AssignAddressSpec(s, 0, host)
    ensures SafeAtou(s).Ok? && PortOf(s).Err? ==> ParseSpec(s, host) == Outcome(-EINVAL, NoWrites)
    ensures PortOf(s).Ok? ==>
      && ParseSpec(s, host).code == 0
      && ParseSpec(s, host).writes.port == Some(PortOf(s).value)
      && ParseSpec(s, host).writes.family == Some(if host.ipv6Supported then AF_INET6 else AF_INET)
  {
    assert Find(s, ':', 0).None?;
  }

  /** A bare port means the wildcard address of IPv6 if the host has it, of IPv4 otherwise. */
  lemma ParseBarePort(p: nat, host: Host)
    requires 1 <= p <= UINT16_MAX
    ensures ParseSpec(NatText(p), host) ==
      if host.ipv6Supported
      then Outcome(0, Writes(Some(AF_INET6), Some(p), None, Some(IN6ADDR_ANY), None, Some(SIZEOF_SOCKADDR_IN6)))
      else Outcome(0, Writes(Some(AF_INET), Some(p), Some(INADDR_ANY), None, None, Some(SIZEOF_SOCKADDR_IN)))
  {
    var s := NatText(p);
    NatTextDenotes(p);
    assert s[0] != '[';
    SafeAtouDecimal(p);
    assert forall k :: 0 <= k < |s| ==> s[k] != ':' by {
      assert forall k :: 0 <= k < |s| ==> IsDigit(s[k]);
    }
  }
}
