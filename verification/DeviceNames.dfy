/** Device names: the decimal printer behind the published names, the parser behind FindDevice,
    and the null-terminated array in between. Strings are C strings without their terminator. */
module DeviceNames {
  import opened Common

  const CONTROL_NAME: string := "nvidiactl"
  const DEVICE_NAME: string := "graphics/nvidia"

  const LONG_MAX: nat := 0x7fff_ffff_ffff_ffff
  const INT32_LIMIT: nat := 0x8000_0000

  // -- Printing --

  function DigitChar(d: nat): char
    requires d < 10
  {
    '0' + d as char
  }

  /** What printf writes for a non-negative number. */
  function Decimal(i: nat): (s: string)
    ensures s != ""
  {
    if i < 10 then [DigitChar(i)] else Decimal(i / 10) + [DigitChar(i % 10)]
  }

  function GpuName(i: nat): string {
    DEVICE_NAME + Decimal(i)
  }

  // -- Parsing --

  predicate IsDigit(c: char) {
    '0' <= c <= '9'
  }

  function DigitValue(c: char): nat
    requires IsDigit(c)
  {
    (c - '0') as nat
  }

  ghost predicate AllDigits(s: string) {
    forall k :: 0 <= k < |s| ==> IsDigit(s[k])
  }

  function LeadingDigits(s: string): (n: nat)
    ensures n <= |s| && AllDigits(s[..n])
    ensures n < |s| ==> !IsDigit(s[n])
  {
    if s == "" || !IsDigit(s[0]) then 0 else
      var n := 1 + LeadingDigits(s[1..]);
      assert s[..n] == [s[0]] + s[1..][..n - 1];
      n
  }

  function Value(s: string): nat
    requires AllDigits(s)
  {
    if s == "" then 0 else 10 * Value(s[..|s| - 1]) + DigitValue(s[|s| - 1])
  }

  /** strtol in base 10 on a string that starts with a digit: where it stops, the saturated value,
      and whether it raises ERANGE. */
  function Strtol(s: string): (int, nat, bool) {
    var n := LeadingDigits(s);
    var v := Value(s[..n]);
    if v > LONG_MAX then (n, LONG_MAX, true) else (n, v, false)
  }

  /** The end position and the value; staleRange tells whether errno held ERANGE before. */
  function ParseUint32(s: string, staleRange: bool): Option<(int, nat)> {
    if !(s == "0" || (s != "" && '1' <= s[0] <= '9')) then None
    else
      var (end, val, range) := Strtol(s);
      if end == 0 then None
      else if val == LONG_MAX && (range || staleRange) then None
      else if val > UINT32_MAX then None
      else Some((end, val))
  }

  function ParseDeviceName(name: string, staleRange: bool): Option<nat> {
    if !(DEVICE_NAME <= name) then None
    else
      var rest := name[|DEVICE_NAME|..];
      var r := ParseUint32(rest, staleRange);
      if r.None? || r.value.0 != |rest| then None else Some(r.value.1)
  }

  // -- Printer and parser are inverse --

  /** Digits without superfluous leading zero. */
  ghost predicate Canonical(s: string) {
    s != "" && AllDigits(s) && (s == "0" || s[0] != '0')
  }

  lemma {:induction false} DecimalIsCanonical(i: nat)
    ensures Canonical(Decimal(i)) && Value(Decimal(i)) == i
    ensures i > 0 ==> Decimal(i)[0] != '0'
  {
    var s := Decimal(i);
    if i < 10 {
      assert s[..0] == "";
    } else {
      DecimalIsCanonical(i / 10);
      assert s[..|s| - 1] == Decimal(i / 10);
    }
  }

  lemma {:induction false} CanonicalIsDecimal(s: string)
    requires Canonical(s)
    ensures Decimal(Value(s)) == s
    ensures s != "0" ==> Value(s) > 0
  {
    var front, last := s[..|s| - 1], s[|s| - 1];
    assert DigitChar(DigitValue(last)) == last;
    assert s == front + [last];
    if front == "" {
      assert Value(front) == 0;
    } else {
      assert front[0] == s[0];
      CanonicalIsDecimal(front);
      assert Value(s) == 10 * Value(front) + DigitValue(last);
      assert Value(s) / 10 == Value(front) && Value(s) % 10 == DigitValue(last);
    }
  }

  lemma {:induction false} LeadingDigitsOfDigits(s: string)
    requires AllDigits(s)
    ensures LeadingDigits(s) == |s|
  {
    if s != "" {
      LeadingDigitsOfDigits(s[1..]);
    }
  }

  /** Accepted to its end with value i: exactly the canonical decimals up to 2^32 - 1. */
  lemma ParseUint32Iff(s: string, staleRange: bool, i: nat)
    ensures ParseUint32(s, staleRange) == Some((|s|, i)) <==> s == Decimal(i) && i <= UINT32_MAX
  {
    DecimalIsCanonical(i);
    if s == Decimal(i) {
      LeadingDigitsOfDigits(s);
      assert s[..|s|] == s;
    }
    if ParseUint32(s, staleRange) == Some((|s|, i)) {
      assert s[..|s|] == s;
      assert Canonical(s);
      CanonicalIsDecimal(s);
    }
  }

  /** The print/parse bijection: a name is accepted with index i exactly when it is what the
      printer writes for i and i fits in 32 bits, whatever errno held. */
  lemma ParseDeviceNameIff(name: string, staleRange: bool, i: nat)
    ensures ParseDeviceName(name, staleRange) == Some(i) <==> name == GpuName(i) && i <= UINT32_MAX
  {
    assert DEVICE_NAME <= GpuName(i);
    if DEVICE_NAME <= name {
      var rest := name[|DEVICE_NAME|..];
      assert name == DEVICE_NAME + rest;
      ParseUint32Iff(rest, staleRange, i);
      if name == GpuName(i) {
        assert rest == Decimal(i);
      }
    }
  }

  // -- Looking devices up --

  datatype Node = NoNode | Control | Gpu(index: nat)

  function FindDevice(name: string, deviceCount: nat, staleRange: bool): Node {
    if name == CONTROL_NAME then Control
    else
      match ParseDeviceName(name, staleRange)
      case Some(index) => if index >= deviceCount then NoNode else Gpu(index)
      case None => NoNode
  }

  /** Which names lead where. */
  lemma FindDeviceIff(name: string, deviceCount: nat, staleRange: bool, i: nat)
    requires deviceCount < INT32_LIMIT
    ensures FindDevice(name, deviceCount, staleRange) == Gpu(i) <==> i < deviceCount && name == GpuName(i)
    ensures FindDevice(name, deviceCount, staleRange) == Control <==> name == CONTROL_NAME
  {
    ParseDeviceNameIff(name, staleRange, i);
    assert GpuName(i)[0] != CONTROL_NAME[0];
  }

  /** The printed name fits the 128-byte buffer with its terminator. */
  lemma {:induction false} DecimalLength(i: nat, n: nat)
    requires i < Power10(n) && n > 0
    ensures |Decimal(i)| <= n
  {
    if i >= 10 {
      DecimalLength(i / 10, n - 1);
    }
  }

  function Power10(n: nat): nat {
    if n == 0 then 1 else 10 * Power10(n - 1)
  }

  lemma NameFitsBuffer(i: nat)
    requires i < INT32_LIMIT
    ensures |GpuName(i)| < 128
  {
    assert Power10(5) == 100000;
    assert Power10(10) == 100000 * Power10(5);
    DecimalLength(i, 10);
  }

  // -- The published array --

  /** A null-terminated array of strings; copying a name may fail for lack of memory. */
  class DeviceNamesArray {
    var names: array<Option<string>>

    constructor (count: nat)
      ensures fresh(names) && names.Length == count + 1
      ensures forall k :: 0 <= k <= count ==> names[k] == None
    {
      names := new Option<string>[count + 1](_ => None);
    }

    method SetName(index: nat, name: string, fails: bool) returns (ok: bool)
      requires index < names.Length - 1
      modifies names
      ensures ok == !fails
      ensures names[..] == if fails then old(names[..]) else old(names[..])[index := Some(name)]
    {
      if fails {
        return false;
      }
      names[index] := Some(name);
      return true;
    }
  }

  /** What a reader of the array sees: the names up to the first null. */
  function Visible(entries: seq<Option<string>>): seq<string> {
    if entries == [] || entries[0].None? then [] else [entries[0].value] + Visible(entries[1..])
  }

  function NameAt(k: nat): string {
    if k == 0 then CONTROL_NAME else GpuName(k - 1)
  }

  /** The first n names are in, null where the copy failed; the rest is null. */
  ghost predicate NamesIn(entries: seq<Option<string>>, n: nat, fails: set<nat>) {
    forall k :: 0 <= k < |entries| ==> entries[k] == if k < n && k !in fails then Some(NameAt(k)) else None
  }

  /** The entries Publish leaves. */
  ghost predicate Published(entries: seq<Option<string>>, deviceCount: nat, fails: set<nat>) {
    |entries| == deviceCount + 2 && NamesIn(entries, deviceCount + 1, fails)
  }

  /** The end of Init; the calls of SetName listed in `fails` run out of memory, which Init does
      not look at. */
  method Publish(deviceCount: nat, fails: set<nat>) returns (published: DeviceNamesArray)
    ensures fresh(published) && fresh(published.names)
    ensures Published(published.names[..], deviceCount, fails)
  {
    published := new DeviceNamesArray(1 + deviceCount);
    var ok := published.SetName(0, CONTROL_NAME, 0 in fails);
    var i := 0;
    while i < deviceCount
      invariant 0 <= i <= deviceCount && fresh(published) && fresh(published.names)
      invariant published.names.Length == deviceCount + 2
      invariant NamesIn(published.names[..], i + 1, fails)
    {
      var name := DEVICE_NAME + Decimal(i);
      ghost var before := published.names[..];
      ok := published.SetName(1 + i, name, 1 + i in fails);
      OneMoreName(before, published.names[..], i + 1, fails);
      i := i + 1;
    }
  }

  lemma OneMoreName(before: seq<Option<string>>, after: seq<Option<string>>, n: nat, fails: set<nat>)
    requires NamesIn(before, n, fails) && 0 < n < |before|
    requires after == if n in fails then before else before[n := Some(GpuName(n - 1))]
    ensures NamesIn(after, n + 1, fails)
  {
  }

  lemma {:induction false} VisibleIsPrefix(entries: seq<Option<string>>, n: nat)
    requires n < |entries| && entries[n].None?
    requires forall k :: 0 <= k < n ==> entries[k].Some?
    ensures |Visible(entries)| == n
    ensures forall k :: 0 <= k < n ==> Visible(entries)[k] == entries[k].value
  {
    if n > 0 {
      VisibleIsPrefix(entries[1..], n - 1);
    }
  }

  /** When no copy fails, the visible names are exactly the names that lead to a device, and the
      name at position 1 + i leads to GPU i. */
  lemma PublishedNamesResolve(entries: seq<Option<string>>, deviceCount: nat, name: string, staleRange: bool)
    requires deviceCount < INT32_LIMIT && Published(entries, deviceCount, {})
    ensures |Visible(entries)| == 1 + deviceCount
    ensures forall k :: 0 <= k <= deviceCount ==> Visible(entries)[k] == NameAt(k)
    ensures name in Visible(entries) <==> FindDevice(name, deviceCount, staleRange) != NoNode
    ensures forall i: nat :: i < deviceCount ==> FindDevice(NameAt(1 + i), deviceCount, staleRange) == Gpu(i)
  {
    VisibleIsPrefix(entries, deviceCount + 1);
    if name in Visible(entries) {
      var k :| 0 <= k < |Visible(entries)| && Visible(entries)[k] == name;
      FindDeviceIff(name, deviceCount, staleRange, if k == 0 then 0 else k - 1);
    }
    match FindDevice(name, deviceCount, staleRange) {
      case Gpu(i) =>
        FindDeviceIff(name, deviceCount, staleRange, i);
        assert Visible(entries)[1 + i] == NameAt(1 + i);
      case Control =>
        FindDeviceIff(name, deviceCount, staleRange, 0);
        assert Visible(entries)[0] == NameAt(0);
      case NoNode =>
    }
    forall i: nat | i < deviceCount ensures FindDevice(NameAt(1 + i), deviceCount, staleRange) == Gpu(i) {
      FindDeviceIff(NameAt(1 + i), deviceCount, staleRange, i);
    }
  }

  /** A failed copy hides its own name and every later one: all names are visible exactly when no
      copy failed. */
  lemma AllVisibleIff(entries: seq<Option<string>>, deviceCount: nat, fails: set<nat>)
    requires Published(entries, deviceCount, fails)
    ensures |Visible(entries)| == 1 + deviceCount <==> forall k :: k in fails ==> k > deviceCount
    ensures forall k :: 0 <= k <= deviceCount && k in fails ==> |Visible(entries)| <= k
  {
    var n := FirstNull(entries, 0);
    VisibleIsPrefix(entries, n);
    assert n <= deviceCount ==> n in fails;
  }

  /** The input that shows it: without memory for the first name the array looks empty. */
  lemma NothingVisible(entries: seq<Option<string>>, deviceCount: nat)
    requires Published(entries, deviceCount, {0})
    ensures Visible(entries) == []
  {
    AllVisibleIff(entries, deviceCount, {0});
  }

  function FirstNull(entries: seq<Option<string>>, from: nat): (n: nat)
    requires from < |entries| && entries[|entries| - 1].None?
    ensures from <= n < |entries| && entries[n].None?
    ensures forall k :: from <= k < n ==> entries[k].Some?
    decreases |entries| - from
  {
    if entries[from].None? then from else FirstNull(entries, from + 1)
  }
}
