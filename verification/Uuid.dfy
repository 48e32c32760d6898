/** Unit identifiers: 16 bytes, their two text forms, and the order that makes them map keys. */
module Uuid {
  import opened Bytes

  const SIZE := 16

  type Id = bs: seq<byte> | |bs| == SIZE witness seq(SIZE, _ => 255)

  // ---------------------------------------------------------------- hexadecimal text

  function HexChar(n: nat, upper: bool): char
    requires n < 16
  {
    if upper then "0123456789ABCDEF"[n] else "0123456789abcdef"[n]
  }

  predicate IsHex(c: char) {
    '0' <= c <= '9' || 'a' <= c <= 'f' || 'A' <= c <= 'F'
  }

  function HexValue(c: char): (n: nat)
    requires IsHex(c)
    ensures n < 16
  {
    if '0' <= c <= '9' then c as int - '0' as int
    else if 'a' <= c <= 'f' then c as int - 'a' as int + 10
    else c as int - 'A' as int + 10
  }

  /** Two digits of one byte. */
  function Hex2(b: byte, upper: bool): string {
    [HexChar(b / 16, upper), HexChar(b % 16, upper)]
  }

  /** How many hexadecimal digits a text starts with. */
  function HexSpan(s: string): (n: nat)
    ensures n <= |s|
    ensures forall i :: 0 <= i < n ==> IsHex(s[i])
  {
    if s == [] || !IsHex(s[0]) then 0 else 1 + HexSpan(s[1..])
  }

  function HexNumber(s: string): nat
    requires forall i :: 0 <= i < |s| ==> IsHex(s[i])
  {
    if s == [] then 0 else HexNumber(s[..|s| - 1]) * 16 + HexValue(s[|s| - 1])
  }

  predicate IsBlank(c: char) {
    c == ' ' || '\t' <= c <= '\r'
  }

  function SkipBlank(s: string): string {
    if s != [] && IsBlank(s[0]) then SkipBlank(s[1..]) else s
  }

  datatype Scan = Fail | Number(value: nat, rest: string)

  function SkipPrefix(s: string): string {
    if |s| >= 2 && s[0] == '0' && (s[1] == 'x' || s[1] == 'X') then s[2..] else s
  }

  /** Formatted extraction of an unsigned number in base 16: blanks, a sign, a `0x`, digits. */
  function ScanHex(input: string, limit: nat): (r: Scan)
    requires limit > 0
    ensures r.Number? ==> r.value < limit
  {
    var s := SkipBlank(input);
    var negative := s != [] && s[0] == '-';
    var t := if s != [] && (s[0] == '-' || s[0] == '+') then s[1..] else s;
    var u := SkipPrefix(t);
    var n := HexSpan(u);
    var value := HexNumber(u[..n]);
    if n == 0 || value >= limit then Fail
    else Number(if negative then (limit - value) % limit else value, u[n..])
  }

  lemma DigitBack(n: nat, upper: bool)
    requires n < 16
    ensures var c := HexChar(n, upper);
      IsHex(c) && HexValue(c) == n && !IsBlank(c) && c != '-' && c != '+' && c != 'x' && c != 'X'
  {}

  const LOWER := "0123456789abcdef"
  const UPPER := "0123456789ABCDEF"

  /** The value of each digit, and the digit of each value. */
  lemma DigitValues(n: nat)
    requires n < 16
    ensures HexChar(n, false) == LOWER[n] && HexChar(n, true) == UPPER[n]
    ensures IsHex(LOWER[n]) && IsHex(UPPER[n]) && HexValue(LOWER[n]) == n == HexValue(UPPER[n])
  {}

  /** The first digit of a byte is the more significant one. */
  lemma FirstDigitHigh(b: byte)
    ensures Hex2(b, false) == [LOWER[b / 16], LOWER[b % 16]] && Hex2(b, true) == [UPPER[b / 16], UPPER[b % 16]]
  {
    DigitValues(b / 16);
    DigitValues(b % 16);
  }

  /** The two digits of a byte are read back as that byte, if no further digit follows. */
  lemma Hex2Back(b: byte, upper: bool, rest: string, limit: nat)
    requires limit >= 256 && (rest == [] || !IsHex(rest[0]))
    ensures ScanHex(Hex2(b, upper) + rest, limit) == Number(b, rest)
  {
    var s := Hex2(b, upper) + rest;
    DigitBack(b / 16, upper);
    DigitBack(b % 16, upper);
    assert s[1..][0] == HexChar(b % 16, upper) && s[1..][1..] == rest;
    assert HexSpan(rest) == 0;
    assert HexSpan(s[1..]) == 1 && HexSpan(s) == 2;
    var d := s[..2];
    assert d[..1][..0] == [];
    assert HexNumber(d[..1]) == HexValue(d[0]);
    assert HexNumber(d) == (b / 16) * 16 + b % 16;
    assert s[2..] == rest;
  }

  // ---------------------------------------------------------------- dotted form

  /** `operator<<` from byte `i` on: two digits each, separated by dots. */
  function Dotted(id: Id, i: nat): string
    requires i < SIZE
    decreases SIZE - i
  {
    if i == SIZE - 1 then Hex2(id[i], false) else Hex2(id[i], false) + "." + Dotted(id, i + 1)
  }

  type ByteScan = r: Scan | r.Number? ==> r.value < 256 witness Fail

  /** One byte of `operator>>`: a dot before every byte but the first, then a number below 256. */
  function ReadByte(input: string, first: bool): ByteScan {
    var s := if first then input else SkipBlank(input);
    if !first && (s == [] || s[0] != '.') then Fail
    else
      var scan := ScanHex(if first then s else s[1..], 0x1_0000);
      if scan.Number? && scan.value > 255 then Fail else scan
  }

  lemma NothingSkipped(input: string)
    requires input != [] && IsHex(input[0]) && input[0] != '0'
    ensures SkipBlank(input) == input && SkipPrefix(input) == input && input[0] != '-' && input[0] != '+'
  {}

  lemma PlainNumber(input: string, limit: nat)
    requires limit > 0 && input != [] && IsHex(input[0]) && input[0] != '0'
    ensures var n := HexSpan(input);
      n > 0 && HexNumber(input[..n]) >= limit ==> ScanHex(input, limit) == Fail
    ensures var n := HexSpan(input);
      n > 0 && HexNumber(input[..n]) < limit ==> ScanHex(input, limit) == Number(HexNumber(input[..n]), input[n..])
  {
    NothingSkipped(input);
  }

  lemma ThreeDigits(input: string)
    requires HexSpan(input) == 3 && HexValue(input[0]) > 0
    ensures HexNumber(input[..3]) > 255
  {
    var d := input[..3];
    assert d[..2] == input[..2] && d[..2][..1] == input[..1] && input[..1][..0] == [];
    assert HexNumber(input[..1]) == HexValue(input[0]);
    assert HexNumber(input[..2]) == HexValue(input[0]) * 16 + HexValue(input[1]);
  }

  /** Without its dot a byte is refused. */
  lemma NoDotRefused(input: string)
    requires input == [] || (!IsBlank(input[0]) && input[0] != '.')
    ensures ReadByte(input, false) == Fail
  {}

  /** A number above 255, such as one of three digits, is refused. */
  lemma LargeRefused(input: string)
    requires input != [] && IsHex(input[0]) && HexValue(input[0]) > 0 && HexSpan(input) == 3
    ensures ReadByte(input, true) == Fail
  {
    PlainNumber(input, 0x1_0000);
    ThreeDigits(input);
  }

  /** How a byte is read does not matter to the loop around it. */
  type Reader = (string, bool) -> ByteScan

  /** What `operator>>` assigns from byte `i` on, and whether it got through all of them. */
  function ReadDotted(read: Reader, input: string, i: nat): (r: (bool, seq<byte>))
    requires i <= SIZE
    ensures |r.1| <= SIZE - i && (r.0 <==> |r.1| == SIZE - i)
    decreases SIZE - i
  {
    if i == SIZE then (true, [])
    else match read(input, i == 0)
      case Fail => (false, [])
      case Number(value, rest) =>
        var later := ReadDotted(read, rest, i + 1); (later.0, [value] + later.1)
  }

  /** Having assigned `done` and with `left` to read, the reading of `input` is on its way. */
  predicate Underway(read: Reader, input: string, left: string, i: nat, done: seq<byte>)
    requires i <= SIZE
  {
    var whole, later := ReadDotted(read, input, 0), ReadDotted(read, left, i);
    whole.0 == later.0 && whole.1 == done + later.1
  }

  lemma UnderwayStart(read: Reader, input: string)
    ensures Underway(read, input, input, 0, [])
  {
    var bytes := ReadDotted(read, input, 0).1;
    assert [] + bytes == bytes;
  }

  lemma UnderwayStep(read: Reader, input: string, left: string, i: nat, done: seq<byte>)
    requires i < SIZE && Underway(read, input, left, i, done)
    ensures match read(left, i == 0)
      case Fail => ReadDotted(read, input, 0) == (false, done)
      case Number(value, rest) => Underway(read, input, rest, i + 1, done + [value])
  {
    match read(left, i == 0)
    case Fail => assert done + [] == done;
    case Number(value, rest) =>
      var later := ReadDotted(read, rest, i + 1).1;
      ReadOneMore(read, left, i, value, rest);
      assert done + ([value] + later) == (done + [value]) + later;
  }

  lemma ReadOneMore(read: Reader, left: string, i: nat, value: byte, rest: string)
    requires i < SIZE && read(left, i == 0) == Number(value, rest)
    ensures var later := ReadDotted(read, rest, i + 1);
      ReadDotted(read, left, i) == (later.0, [value] + later.1)
  {}

  lemma UnderwayEnd(read: Reader, input: string, left: string, done: seq<byte>)
    requires Underway(read, input, left, SIZE, done)
    ensures ReadDotted(read, input, 0) == (true, done)
  {
    assert done + [] == done;
  }

  lemma ByteBack(b: byte, first: bool, rest: string)
    requires rest == [] || !IsHex(rest[0])
    ensures ReadByte((if first then "" else ".") + (Hex2(b, false) + rest), first) == Number(b, rest)
  {
    var digits := Hex2(b, false) + rest;
    Hex2Back(b, false, rest, 0x1_0000);
    if first {
      assert "" + digits == digits;
    } else {
      assert ("." + digits)[1..] == digits && SkipBlank("." + digits) == "." + digits;
    }
  }

  /** The text from byte `i` on, with the separator that precedes it, and what follows. */
  function Text(id: Id, i: nat, tail: string): string
    requires i < SIZE
  {
    (if i == 0 then "" else ".") + (Dotted(id, i) + tail)
  }

  /** What follows the digits of byte `i`. */
  function Behind(id: Id, i: nat, tail: string): string
    requires i < SIZE
  {
    if i == SIZE - 1 then tail else Text(id, i + 1, tail)
  }

  lemma FirstByte(id: Id, i: nat, tail: string)
    requires i < SIZE && (tail == [] || !IsHex(tail[0]))
    ensures ReadByte(Text(id, i, tail), i == 0) == Number(id[i], Behind(id, i, tail))
  {
    var digits := Hex2(id[i], false);
    if i < SIZE - 1 {
      var more := Dotted(id, i + 1);
      Joined(digits, more, tail);
    }
    assert Dotted(id, i) + tail == digits + Behind(id, i, tail);
    ByteBack(id[i], i == 0, Behind(id, i, tail));
  }

  /** The loop reads back the bytes of a dotted text if every byte of it is read back. */
  lemma {:induction false} DottedBack(read: Reader, id: Id, i: nat, tail: string)
    requires i < SIZE
    requires forall j :: i <= j < SIZE ==> read(Text(id, j, tail), j == 0) == Number(id[j], Behind(id, j, tail))
    ensures ReadDotted(read, Text(id, i, tail), i) == (true, id[i..])
    decreases SIZE - i
  {
    assert id[i..] == [id[i]] + id[i + 1..];
    if i < SIZE - 1 {
      DottedBack(read, id, i + 1, tail);
    }
  }

  /** A pair of digits stands at `at`, with a dot behind it if another one follows. */
  predicate PairAt(text: string, at: nat, pair: string, more: bool) {
    && at + 2 <= |text| && text[at..at + 2] == pair
    && (more ==> at + 2 < |text| && text[at + 2] == '.')
  }

  lemma PairBehind(digits: string, rest: string, at: nat, pair: string, more: bool)
    requires |digits| == 2 && PairAt(rest, at, pair, more)
    ensures PairAt(digits + "." + rest, at + 3, pair, more)
  {
    var text := digits + "." + rest;
    assert text[3..] == rest && text[at + 3..at + 5] == rest[at..at + 2];
  }

  lemma PairFirst(digits: string, rest: string)
    requires |digits| == 2
    ensures PairAt(digits + "." + rest, 0, digits, true) && PairAt(digits, 0, digits, false)
  {}

  lemma {:induction false} DottedLength(id: Id, i: nat)
    requires i < SIZE
    ensures |Dotted(id, i)| == 3 * (SIZE - i) - 1
    decreases SIZE - i
  {
    if i < SIZE - 1 {
      DottedLength(id, i + 1);
    }
  }

  /** The dotted form from byte `i` on: two digits for each byte and a dot before every next one. */
  lemma {:induction false} DottedShape(id: Id, i: nat, k: nat)
    requires i <= k < SIZE
    ensures |Dotted(id, i)| == 3 * (SIZE - i) - 1
    ensures PairAt(Dotted(id, i), 3 * (k - i), Hex2(id[k], false), k < SIZE - 1)
    decreases SIZE - i
  {
    DottedLength(id, i);
    var digits, pair := Hex2(id[i], false), Hex2(id[k], false);
    if i == SIZE - 1 {
      PairFirst(digits, "");
    } else if k == i {
      PairFirst(digits, Dotted(id, i + 1));
    } else {
      DottedShape(id, i + 1, k);
      PairBehind(digits, Dotted(id, i + 1), 3 * (k - i - 1), pair, k < SIZE - 1);
    }
  }

  /** Extraction inverts insertion for every identifier, whatever follows it but a digit. */
  lemma ExtractionInvertsInsertion(id: Id, tail: string)
    requires tail == [] || !IsHex(tail[0])
    ensures ReadDotted(ReadByte, Dotted(id, 0) + tail, 0) == (true, id)
  {
    forall j | 0 <= j < SIZE ensures ReadByte(Text(id, j, tail), j == 0) == Number(id[j], Behind(id, j, tail)) {
      FirstByte(id, j, tail);
    }
    DottedBack(ReadByte, id, 0, tail);
    Prefixed(Dotted(id, 0) + tail);
    assert id[0..] == id;
  }

  lemma Joined(a: string, b: string, c: string)
    ensures a + "." + b + c == a + ("." + (b + c))
  {}

  lemma Prefixed(s: string)
    ensures "" + s == s
  {}

  // ---------------------------------------------------------------- plain hexadecimal form

  /** `print` without its line end: two capital digits per byte. */
  function Printed(id: seq<byte>): string {
    if id == [] then "" else Hex2(id[0], true) + Printed(id[1..])
  }

  /** One byte of the string constructor. Extraction of a malformed pair yields 0; of two
      blanks nothing is stored, so the byte is whatever the local held (`junk`). */
  function PairByte(pair: string, junk: byte): byte {
    if SkipBlank(pair) == [] then junk
    else match ScanHex(pair, 0x1_0000_0000)
      case Fail => 0
      case Number(value, _) => value % 256
  }

  lemma {:induction false} PrintedPairs(id: seq<byte>, i: nat)
    requires i < |id|
    ensures |Printed(id)| == 2 * |id| && Printed(id)[2 * i..2 * i + 2] == Hex2(id[i], true)
    decreases |id|
  {
    if i > 0 {
      PrintedPairs(id[1..], i - 1);
      assert Printed(id)[2 * i..2 * i + 2] == Printed(id[1..])[2 * (i - 1)..2 * (i - 1) + 2];
    } else if |id| > 1 {
      PrintedPairs(id[1..], 0);
    }
  }

  lemma PairByteBack(b: byte, junk: byte)
    ensures PairByte(Hex2(b, true), junk) == b
  {
    Hex2Back(b, true, [], 0x1_0000_0000);
    DigitBack(b / 16, true);
    assert Hex2(b, true) + [] == Hex2(b, true);
  }

  /** Every printed pair is read back as the byte it shows. */
  lemma PairBack(id: Id, k: nat, junk: byte)
    requires k < SIZE
    ensures |Printed(id)| == 2 * SIZE && PairByte(Printed(id)[2 * k..2 * k + 2], junk) == id[k]
  {
    PrintedPairs(id, k);
    PairByteBack(id[k], junk);
  }

  /** The bytes the string constructor stores. */
  function Pairs(hex: string, junk: Id): (bytes: Id)
    requires |hex| == 2 * SIZE
    ensures forall k :: 0 <= k < SIZE ==> bytes[k] == PairByte(hex[2 * k..2 * k + 2], junk[k])
  {
    seq(SIZE, k requires 0 <= k < SIZE => PairByte(hex[2 * k..2 * k + 2], junk[k]))
  }

  /** The string constructor inverts `print`, whatever the memory held before. */
  lemma ConstructorInvertsPrint(id: Id, junk: Id)
    ensures |Printed(id)| == 2 * SIZE && Pairs(Printed(id), junk) == id
  {
    forall k | 0 <= k < SIZE ensures |Printed(id)| == 2 * SIZE && PairByte(Printed(id)[2 * k..2 * k + 2], junk[k]) == id[k] {
      PairBack(id, k, junk[k]);
    }
    PrintedPairs(id, 0);
  }

  // ---------------------------------------------------------------- order

  /** The sign of `memcmp`: the first differing byte decides. */
  function Compare(a: seq<byte>, b: seq<byte>): int
    requires |a| == |b|
  {
    if a == [] then 0
    else if a[0] != b[0] then a[0] - b[0]
    else Compare(a[1..], b[1..])
  }

  predicate Less(a: Id, b: Id) {
    Compare(a, b) < 0
  }

  /** The first differing byte decides. */
  lemma {:induction false} FirstDifference(a: seq<byte>, b: seq<byte>, k: nat)
    requires |a| == |b| && k < |a| && a[..k] == b[..k] && a[k] != b[k]
    ensures Compare(a, b) < 0 <==> a[k] < b[k]
    decreases k
  {
    if k > 0 {
      assert a[0] == a[..k][0] == b[..k][0] == b[0];
      assert a[1..][..k - 1] == a[..k][1..] && b[1..][..k - 1] == b[..k][1..];
      FirstDifference(a[1..], b[1..], k - 1);
    }
  }

  lemma {:induction false} CompareAntisymmetric(a: seq<byte>, b: seq<byte>)
    requires |a| == |b|
    ensures Compare(a, b) < 0 <==> Compare(b, a) > 0
    ensures Compare(a, b) == 0 <==> a == b
    decreases |a|
  {
    if a != [] {
      CompareAntisymmetric(a[1..], b[1..]);
      assert a == [a[0]] + a[1..] && b == [b[0]] + b[1..];
    }
  }

  lemma {:induction false} CompareTransitive(a: seq<byte>, b: seq<byte>, c: seq<byte>)
    requires |a| == |b| == |c|
    requires Compare(a, b) < 0 && Compare(b, c) < 0
    ensures Compare(a, c) < 0
    decreases |a|
  {
    if a != [] && a[0] == b[0] == c[0] {
      CompareTransitive(a[1..], b[1..], c[1..]);
    }
  }

  /** `operator<` is a strict total order, and two identifiers are equal exactly when neither
      is smaller: what `std::map` needs of its keys. */
  lemma StrictTotalOrder(a: Id, b: Id, c: Id)
    ensures !Less(a, a)
    ensures Less(a, b) ==> !Less(b, a)
    ensures Less(a, b) && Less(b, c) ==> Less(a, c)
    ensures a == b <==> !Less(a, b) && !Less(b, a)
  {
    CompareAntisymmetric(a, a);
    CompareAntisymmetric(a, b);
    CompareAntisymmetric(b, a);
    if Less(a, b) && Less(b, c) {
      CompareTransitive(a, b, c);
    }
  }

  // ---------------------------------------------------------------- the identifier object

  /** `done` has been written over the front of `before`. */
  predicate Overlaid(now: seq<byte>, before: seq<byte>, done: seq<byte>) {
    && |now| == |before| >= |done|
    && (forall k :: 0 <= k < |done| ==> now[k] == done[k])
    && (forall k :: |done| <= k < |now| ==> now[k] == before[k])
  }

  lemma OverlaidGrows(now: seq<byte>, before: seq<byte>, done: seq<byte>, b: byte)
    requires Overlaid(now, before, done) && |done| < |now|
    ensures Overlaid(now[|done| := b], before, done + [b])
  {}

  lemma OverlaidWhole(now: seq<byte>, before: seq<byte>, done: seq<byte>)
    requires Overlaid(now, before, done)
    ensures now == done + before[|done|..]
  {}

  class UUID {
    var value: array<byte>

    ghost predicate Valid()
      reads this
    {
      value.Length == SIZE
    }

    /** The default identifier. */
    constructor ()
      ensures Valid() && fresh(value)
      ensures forall i :: 0 <= i < SIZE ==> value[i] == 0xFF
    {
      value := new byte[SIZE](_ => 0xFF);
    }

    /** Build from hexadecimal digits. A text of the wrong length is refused (the source
        throws). `junk` is what the local that each pair is read into happens to hold. */
    method FromHex(hex: string, junk: Id) returns (ok: bool)
      requires Valid()
      modifies value
      ensures ok <==> |hex| == 2 * SIZE
      ensures value[..] == if ok then Pairs(hex, junk) else old(value[..])
    {
      if |hex| != 2 * SIZE {
        return false;
      }
      ghost var wanted := Pairs(hex, junk);
      var i := 0;
      while i < SIZE
        invariant i <= SIZE
        invariant forall k :: 0 <= k < i ==> value[k] == wanted[k]
      {
        value[i] := PairByte(hex[2 * i..2 * i + 2], junk[i]);
        i := i + 1;
      }
      return true;
    }

    /** `operator<<`. */
    method Insert() returns (text: string)
      requires Valid()
      ensures text == Dotted(value[..], 0)
    {
      text := Hex2(value[SIZE - 1], false);
      var i := SIZE - 1;
      while i > 0
        invariant 0 <= i < SIZE && text == Dotted(value[..], i)
      {
        i := i - 1;
        text := Hex2(value[i], false) + "." + text;
      }
    }

    /** `operator>>`: assigns bytes until the text ends or breaks the form; the bytes behind
        keep their values. */
    method Extract(input: string) returns (ok: bool)
      requires Valid()
      modifies value
      ensures var r := ReadDotted(ReadByte, input, 0);
        ok == r.0 && value[..] == r.1 + old(value[|r.1|..])
    {
      ok := ExtractBytes(ReadByte, input);
    }

    /** The loop of the extraction, for any way to read one byte. */
    method ExtractBytes(read: Reader, input: string) returns (ok: bool)
      requires Valid()
      modifies value
      ensures var r := ReadDotted(read, input, 0);
        ok == r.0 && value[..] == r.1 + old(value[|r.1|..])
    {
      ghost var before := value[..];
      var i, left := 0, input;
      ghost var done: seq<byte> := [];
      UnderwayStart(read, input);
      while i < SIZE
        invariant i <= SIZE && |done| == i && Overlaid(value[..], before, done)
        invariant Underway(read, input, left, i, done)
      {
        var scan := read(left, i == 0);
        UnderwayStep(read, input, left, i, done);
        if scan.Fail? {
          OverlaidWhole(value[..], before, done);
          return false;
        }
        OverlaidGrows(value[..], before, done, scan.value);
        value[i] := scan.value;
        done := done + [scan.value];
        left, i := scan.rest, i + 1;
      }
      UnderwayEnd(read, input, left, done);
      OverlaidWhole(value[..], before, done);
      return true;
    }
  }
}
