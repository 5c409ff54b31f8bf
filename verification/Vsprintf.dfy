/** Printing numbers and reading them back. */
module Vsprintf {
  import opened Bits

  /** An unsigned long has 32 bits. */
  const WORD := 0x1_0000_0000
  const LONG_MIN := -0x8000_0000
  const LONG_MAX := 0x7fff_ffff

  const SMALL_DIGITS := "0123456789abcdefghijklmnopqrstuvwxyz"
  const LARGE_DIGITS := "0123456789ABCDEFGHIJKLMNOPQRSTUVWXYZ"

  // ---- Digits

  function DigitChar(d: nat, large: bool): char
    requires d < 36
  {
    (if large then LARGE_DIGITS else SMALL_DIGITS)[d]
  }

  predicate IsDigit(c: char) {
    '0' <= c <= '9'
  }

  predicate IsXdigit(c: char) {
    '0' <= c <= '9' || 'a' <= c <= 'f' || 'A' <= c <= 'F'
  }

  /** The value of a hexadecimal digit. */
  function DigitValue(c: char): (v: nat)
    requires IsXdigit(c)
    ensures v < 16
  {
    if IsDigit(c) then c as int - '0' as int
    else if 'a' <= c <= 'f' then c as int - 'a' as int + 10
    else c as int - 'A' as int + 10
  }

  /** c is a digit in this base. */
  predicate Reads(c: char, base: nat) {
    IsXdigit(c) && DigitValue(c) < base
  }

  lemma DigitBack(d: nat, base: nat, large: bool)
    requires d < base <= 16
    ensures Reads(DigitChar(d, large), base) && DigitValue(DigitChar(d, large)) == d
  {
    assert d == 0 || d == 1 || d == 2 || d == 3 || d == 4 || d == 5 || d == 6 || d == 7 ||
           d == 8 || d == 9 || d == 10 || d == 11 || d == 12 || d == 13 || d == 14 || d == 15;
  }

  /** A number written in a base, most significant digit first. */
  function Digits(n: nat, base: nat, large: bool): string
    requires 2 <= base <= 36
    decreases n
  {
    if n < base then [DigitChar(n, large)] else
      Quotient(n, base);
      Digits(n / base, base, large) + [DigitChar(n % base, large)]
  }

  lemma Quotient(n: nat, base: nat)
    requires 2 <= base
    ensures 0 <= n / base && (n >= base ==> n / base < n) && n == (n / base) * base + n % base && 0 <= n % base < base
  {
  }

  ghost predicate AllRead(s: string, base: nat) {
    forall i :: 0 <= i < |s| ==> Reads(s[i], base)
  }

  /** The number a string of digits stands for. */
  ghost function Value(s: string, base: nat): nat
    requires AllRead(s, base)
  {
    if s == [] then 0 else Value(s[..|s| - 1], base) * base + DigitValue(s[|s| - 1])
  }

  lemma ValueNext(s: string, c: char, base: nat)
    requires AllRead(s, base) && Reads(c, base)
    ensures AllRead(s + [c], base) && Value(s + [c], base) == Value(s, base) * base + DigitValue(c)
  {
    assert (s + [c])[..|s|] == s;
  }

  /** Reading is the inverse of writing. */
  lemma {:induction false} DigitsValue(n: nat, base: nat, large: bool)
    requires 2 <= base <= 16
    ensures AllRead(Digits(n, base, large), base) && Value(Digits(n, base, large), base) == n
    ensures Digits(n, base, large) != []
    decreases n
  {
    hide Reads, DigitValue, DigitChar;
    Quotient(n, base);
    if n < base {
      DigitBack(n, base, large);
      var d := DigitChar(n, large);
      assert [d][..0] == [];
    } else {
      DigitsValue(n / base, base, large);
      DigitBack(n % base, base, large);
      ValueNext(Digits(n / base, base, large), DigitChar(n % base, large), base);
    }
  }

  ghost function Fill(c: char, n: int): string {
    if n <= 0 then [] else Fill(c, n - 1) + [c]
  }

  lemma {:induction false} FillIs(c: char, n: int)
    ensures |Fill(c, n)| == (if n < 0 then 0 else n) && forall i :: 0 <= i < |Fill(c, n)| ==> Fill(c, n)[i] == c
    decreases n
  {
    if n > 0 {
      FillIs(c, n - 1);
    }
  }

  lemma {:induction false} ZerosValue(k: int, base: nat)
    requires 1 <= base
    ensures AllRead(Fill('0', k), base) && Value(Fill('0', k), base) == 0
    decreases k
  {
    if k > 0 {
      ZerosValue(k - 1, base);
      ValueNext(Fill('0', k - 1), '0', base);
    }
  }

  /** Leading zeros make no difference. */
  lemma {:induction false} LeadingZeros(k: int, s: string, base: nat)
    requires 1 <= base && AllRead(s, base)
    ensures AllRead(Fill('0', k) + s, base) && Value(Fill('0', k) + s, base) == Value(s, base)
    decreases |s|
  {
    hide Reads, DigitValue, Fill;
    var z := Fill('0', k);
    if s == [] {
      ZerosValue(k, base);
      assert z + s == z;
    } else {
      var (t, c) := (s[..|s| - 1], s[|s| - 1]);
      LeadingZeros(k, t, base);
      assert s == t + [c] && z + s == (z + t) + [c];
      hide Value;
      ValueNext(t, c, base);
      ValueNext(z + t, c, base);
    }
  }

  // ---- number

  datatype Flags = Flags(zeropad: bool, sign: bool, plus: bool, space: bool, left: bool, special: bool, large: bool)

  /** The long that number is called with, when the argument may have been an unsigned long. */
  function Long(num: int): int {
    if num > LONG_MAX then num - WORD else num
  }

  /** The sign to be printed, if any. */
  function SignOf(num: int, f: Flags): string {
    if !f.sign then "" else if Long(num) < 0 then "-" else if f.plus then "+" else if f.space then " " else ""
  }

  function PrefixOf(base: nat, f: Flags): string {
    if !f.special then "" else if base == 8 then "0" else if base == 16 then ['0', DigitChar(33, f.large)] else ""
  }

  /** The word whose digits are printed: the absolute value of a signed number. */
  function Magnitude(num: int, f: Flags): (w: nat)
    requires LONG_MIN <= num < WORD
    ensures w < WORD
  {
    var n := Long(num);
    if f.sign && n < 0 then -n else if n < 0 then n + WORD else n
  }

  ghost function Padded(num: int, base: nat, precision: int, f: Flags): string
    requires LONG_MIN <= num < WORD && 2 <= base <= 36
  {
    var digits := Digits(Magnitude(num, f), base, f.large);
    Fill('0', precision - |digits|) + digits
  }

  /** The text of a number: sign, prefix, digits up to the precision, and filling up to the
      width with blanks on either side or with zeros after the prefix. */
  ghost function Text(num: int, base: nat, size: int, precision: int, f: Flags): string
    requires LONG_MIN <= num < WORD && 2 <= base <= 36
  {
    var (sign, prefix, body) := (SignOf(num, f), PrefixOf(base, f), Padded(num, base, precision, f));
    var fill := size - |sign| - |prefix| - |body|;
    if f.left then sign + prefix + body + Fill(' ', fill)
    else if f.zeropad then sign + prefix + Fill('0', fill) + body
    else Fill(' ', fill) + sign + prefix + body
  }

  function Max(a: int, b: int): int {
    if a < b then b else a
  }

  /** The printed length is the width, or more if sign, prefix and digits need more. */
  lemma TextLength(num: int, base: nat, size: int, precision: int, f: Flags)
    requires LONG_MIN <= num < WORD && 2 <= base <= 36
    ensures |Text(num, base, size, precision, f)| ==
      Max(size, |SignOf(num, f)| + |PrefixOf(base, f)| + Max(precision, |Digits(Magnitude(num, f), base, f.large)|))
  {
    hide SignOf, PrefixOf, Digits, Magnitude, Fill;
    var (sign, prefix, body) := (SignOf(num, f), PrefixOf(base, f), Padded(num, base, precision, f));
    var fill := size - |sign| - |prefix| - |body|;
    FillIs(' ', fill);
    FillIs('0', fill);
    FillIs('0', precision - |Digits(Magnitude(num, f), base, f.large)|);
  }

  function Reversed(s: string): string {
    if s == [] then [] else Reversed(s[1..]) + [s[0]]
  }

  lemma {:induction false} ReversedSnoc(s: string, c: char)
    ensures Reversed(s + [c]) == [c] + Reversed(s)
  {
    if s == [] {
      assert s + [c] == [c] && [c][1..] == [];
    } else {
      assert (s + [c])[1..] == s[1..] + [c];
      ReversedSnoc(s[1..], c);
    }
  }

  /** tmp: the digits, least significant first. */
  method DigitBuffer(w: nat, base: nat, large: bool) returns (tmp: string)
    requires 2 <= base <= 36
    ensures Reversed(tmp) == Digits(w, base, large) && |tmp| == |Digits(w, base, large)|
  {
    tmp := [];
    var n: nat := w;
    if n == 0 {
      tmp := [DigitChar(0, large)];
      assert tmp[1..] == [];
      return;
    }
    while n != 0
      invariant n > 0 ==> Digits(n, base, large) + Reversed(tmp) == Digits(w, base, large)
      invariant n == 0 ==> Reversed(tmp) == Digits(w, base, large)
      invariant n > 0 ==> |Digits(n, base, large)| + |tmp| == |Digits(w, base, large)|
      invariant n == 0 ==> |tmp| == |Digits(w, base, large)|
      decreases n
    {
      Quotient(n, base);
      SmallDigit(n, base);
      var c := DigitChar(n % base, large);
      ReversedSnoc(tmp, c);
      if n >= base {
        assert Digits(n / base, base, large) + ([c] + Reversed(tmp))
          == (Digits(n / base, base, large) + [c]) + Reversed(tmp);
      }
      tmp := tmp + [c];
      n := n / base;
    }
  }

  lemma SmallDigit(n: nat, base: nat)
    requires 2 <= base
    ensures n < base ==> n / base == 0 && n % base == n
    ensures n >= base ==> n / base > 0
  {
    Quotient(n, base);
  }

  /** What number writes, in order: blanks, sign, prefix, filling zeros; then zeros up to the
      precision, digits, blanks. */
  ghost function Head(f: Flags, sign: string, prefix: string, fill: int): string {
    (if !f.zeropad && !f.left then Fill(' ', fill) else []) + sign + prefix
      + (if !f.left && f.zeropad then Fill('0', fill) else [])
  }

  ghost function Tail(f: Flags, fill: int, zeros: string, digits: string): string {
    zeros + digits + (if f.left then Fill(' ', fill) else [])
  }

  lemma PiecesAre(f: Flags, sign: string, prefix: string, fill: int, zeros: string, digits: string)
    ensures Head(f, sign, prefix, fill) + Tail(f, fill, zeros, digits) ==
      if f.left then sign + prefix + (zeros + digits) + Fill(' ', fill)
      else if f.zeropad then sign + prefix + Fill('0', fill) + (zeros + digits)
      else Fill(' ', fill) + sign + prefix + (zeros + digits)
  {
    hide Fill;
    assert [] + sign == sign && zeros + digits + [] == zeros + digits;
    if f.left {
      assert sign + prefix + [] == sign + prefix;
    } else if !f.zeropad {
      assert Fill(' ', fill) + sign + prefix + [] == Fill(' ', fill) + sign + prefix;
    }
  }

  /** The sign, and the word that is left. */
  method SignPart(num0: int, f: Flags) returns (num: nat, sign: string)
    requires LONG_MIN <= num0 < WORD
    ensures num == Magnitude(num0, f) && sign == SignOf(num0, f)
  {
    sign := "";
    var n := Long(num0);
    if f.sign {
      if n < 0 {
        sign := "-";
        n := -n;
      } else if f.plus {
        sign := "+";
      } else if f.space {
        sign := " ";
      }
    }
    num := if n < 0 then n + WORD else n;
  }

  method PrefixPart(base: nat, f: Flags) returns (prefix: string)
    ensures prefix == PrefixOf(base, f)
  {
    prefix := "";
    if f.special {
      if base == 8 {
        prefix := "0";
      } else if base == 16 {
        prefix := ['0', DigitChar(33, f.large)];
      }
    }
  }

  /** number: appends the text of a number to what is in the buffer, if it knows the base. */
  method Number(str0: string, num0: int, base: int, size0: int, precision0: int, f: Flags) returns (ok: bool,
                str: string)
    requires LONG_MIN <= num0 < WORD
    ensures ok <==> 2 <= base <= 36
    ensures ok ==> str == str0 + Text(num0, base, size0, precision0, f)
  {
    hide Fill, Digits, Reversed, Head, Tail, SignOf, PrefixOf, Magnitude;
    if base < 2 || base > 36 {
      return false, str0;
    }
    var num, sign := SignPart(num0, f);
    var prefix := PrefixPart(base, f);
    var tmp := DigitBuffer(num, base, f.large);
    var i := |tmp|;
    var precision := if i > precision0 then i else precision0;
    var size := size0 - |sign| - |prefix| - precision;
    ghost var digits := Digits(num, base, f.large);
    PrecisionZeros(precision0, i, digits);
    PiecesAre(f, sign, prefix, size, Fill('0', precision - i), digits);
    str := EmitHead(str0, f, sign, prefix, size);
    str := EmitTail(str, f, size, precision - i, tmp);
    ghost var (head, tail) := (Head(f, sign, prefix, size), Tail(f, size, Fill('0', precision - i), digits));
    assert str0 + head + tail == str0 + (head + tail);
    ok := true;
  }

  lemma PrecisionZeros(precision: int, i: nat, digits: string)
    requires i == |digits|
    ensures Fill('0', Max(precision, i) - i) == Fill('0', precision - i)
    ensures |Fill('0', precision - i) + digits| == Max(precision, i)
  {
    FillIs('0', precision - i);
    if precision < i {
      assert Fill('0', 0) == [];
    }
  }

  method EmitHead(str0: string, f: Flags, sign: string, prefix: string, size: int) returns (str: string)
    ensures str == str0 + Head(f, sign, prefix, size)
  {
    hide Fill;
    str := str0;
    if !f.zeropad && !f.left {
      str := FillWith(str, ' ', size);
    }
    str := str + sign;
    str := str + prefix;
    if !f.left && f.zeropad {
      str := FillWith(str, '0', size);
    }
  }

  method EmitTail(str0: string, f: Flags, size: int, zeros: int, tmp: string) returns (str: string)
    ensures str == str0 + Tail(f, size, Fill('0', zeros), Reversed(tmp))
  {
    hide Fill, Reversed;
    str := FillWith(str0, '0', zeros);
    str := Backwards(str, tmp);
    if f.left {
      str := FillWith(str, ' ', size);
    }
  }

  lemma FillNone(c: char, n: int)
    ensures n <= 0 ==> Fill(c, n) == []
  {
  }

  method FillWith(str0: string, c: char, n: int) returns (str: string)
    ensures str == str0 + Fill(c, n)
  {
    str := str0;
    var size := n;
    while size > 0
      invariant str == str0 + Fill(c, n - Max(size, 0)) && (n > 0 ==> 0 <= size <= n) && (n <= 0 ==> size == n)
    {
      str := str + [c];
      size := size - 1;
    }
  }

  method Backwards(str0: string, tmp: string) returns (str: string)
    ensures str == str0 + Reversed(tmp)
  {
    str := str0;
    var i := |tmp|;
    assert tmp[..i] == tmp;
    while i > 0
      invariant 0 <= i <= |tmp| && str + Reversed(tmp[..i]) == str0 + Reversed(tmp)
    {
      i := i - 1;
      assert tmp[..i + 1] == tmp[..i] + [tmp[i]];
      ReversedSnoc(tmp[..i], tmp[i]);
      assert str + ([tmp[i]] + Reversed(tmp[..i])) == (str + [tmp[i]]) + Reversed(tmp[..i]);
      str := str + [tmp[i]];
    }
    assert tmp[..0] == [];
  }

  // ---- simple_strtoul and simple_strtol

  /** The base that base zero stands for, and where its digits begin. */
  function Detect(s: string): (r: (nat, nat))
    ensures r.1 <= |s| && 8 <= r.0 <= 16
  {
    if |s| > 0 && s[0] == '0' then
      if |s| > 2 && s[1] == 'x' && IsXdigit(s[2]) then (16, 2) else (8, 1)
    else (10, 0)
  }

  /** The longest run of digits from the start. */
  ghost predicate Longest(s: string, start: nat, end: nat, base: nat) {
    start <= end <= |s| && AllRead(s[start..end], base) && (end < |s| ==> !Reads(s[end], base))
  }

  lemma WrapStep(v: nat, base: nat, d: nat)
    ensures ((v % WORD) * base + d) % WORD == (v * base + d) % WORD
  {
    var q, r := v / WORD, v % WORD;
    Distribute(q * WORD, r, base);
    assert v == q * WORD + r;
    assert (q * WORD) * base == (q * base) * WORD by {
      Assoc(q, WORD, base);
      Assoc(q, base, WORD);
    }
    AddWords(r * base + d, q * base);
  }

  lemma {:induction false} AddWords(x: int, k: nat)
    ensures (x + k * WORD) % WORD == x % WORD
  {
    if k > 0 {
      AddWords(x, k - 1);
    }
  }

  /** The text of a number in this base, or in the base that its prefix shows, is read up to
      the first character that is not one of its digits. */
  ghost predicate ReadAs(s: string, base0: nat, result: nat, end: nat) {
    var (base, start) := if base0 == 0 then Detect(s) else (base0, 0);
    Longest(s, start, end, base) && result == Value(s[start..end], base) % WORD
  }

  method SimpleStrtoul(s: string, base0: nat) returns (result: nat, end: nat)
    ensures ReadAs(s, base0, result, end)
  {
    var base, start := base0, 0;
    if base == 0 {
      base := 10;
      if |s| > 0 && s[0] == '0' {
        base := 8;
        start := 1;
        if |s| > 2 && s[1] == 'x' && IsXdigit(s[2]) {
          start := 2;
          base := 16;
        }
      }
    }
    hide Longest, Value;
    result, end := ReadDigits(s, start, base);
  }

  /** The loop of simple_strtoul. */
  method ReadDigits(s: string, start: nat, base: nat) returns (result: nat, end: nat)
    requires start <= |s|
    ensures Longest(s, start, end, base) && result == Value(s[start..end], base) % WORD
  {
    result, end := 0, start;
    assert s[start..end] == [];
    while end < |s| && IsXdigit(s[end]) && DigitValue(s[end]) < base
      invariant start <= end <= |s| && AllRead(s[start..end], base) && result == Value(s[start..end], base) % WORD
    {
      hide Value;
      var d := DigitValue(s[end]);
      ValueNext(s[start..end], s[end], base);
      assert s[start..end + 1] == s[start..end] + [s[end]];
      WrapStep(Value(s[start..end], base), base, d);
      result := (result * base + d) % WORD;
      end := end + 1;
    }
  }

  /** A word taken as a signed number. */
  function Signed(w: nat): int
    requires w < WORD
  {
    if w > LONG_MAX then w - WORD else w
  }

  /** A minus sign may come before it. */
  ghost predicate ReadSignedAs(s: string, base0: nat, result: int, end: nat) {
    if |s| > 0 && s[0] == '-' then WithSign(s[1..], true, base0, result, end)
      else WithSign(s, false, base0, result, end)
  }

  ghost predicate WithSign(s: string, negative: bool, base0: nat, result: int, end: nat) {
    exists v: nat, e: nat ::
      && ReadAs(s, base0, v, e) && v < WORD && end == (if negative then e + 1 else e)
      && result == Signed(if negative && v > 0 then WORD - v else v)
  }

  method SimpleStrtol(s: string, base0: nat) returns (result: int, end: nat)
    ensures ReadSignedAs(s, base0, result, end)
  {
    var w, e;
    if |s| > 0 && s[0] == '-' {
      w, e := SimpleStrtoul(s[1..], base0);
      result, end := Signed(if w > 0 then WORD - w else w), e + 1;
    } else {
      w, e := SimpleStrtoul(s, base0);
      result, end := Signed(w), e;
    }
  }

  // ---- Round trips

  /** What follows the number is not one of its digits. */
  ghost predicate Stops(rest: string, base: nat) {
    rest == [] || !Reads(rest[0], base)
  }

  lemma LongestIs(s: string, start: nat, t: string, rest: string, base: nat, end: nat)
    requires start <= |s| && s[start..] == t + rest && AllRead(t, base) && Stops(rest, base)
    requires Longest(s, start, end, base)
    ensures end == start + |t| && s[start..end] == t
  {
    hide Reads;
    forall i | start <= i < end ensures Reads(s[i], base) { assert s[start..end][i - start] == s[i]; }
    forall i | start <= i < start + |t|
      ensures s[i] == t[i - start] && Reads(s[i], base)
    {
      assert s[start..][i - start] == s[i];
    }
    assert rest != [] ==> s[start + |t|] == s[start..][|t|] == rest[0];
  }

  lemma SmallWord(w: nat)
    requires w < WORD
    ensures w % WORD == w
  {
  }

  /** Where the digits begin, and in which base they are. */
  ghost predicate Begins(s: string, base0: nat, base: nat, start: nat) {
    if base0 == 0 then Detect(s) == (base, start) else base == base0 && start == 0
  }

  /** Zeros and digits are read as the word they were printed from. */
  lemma BodyReads(w: nat, base: nat, large: bool, k: int, s: string, base0: nat, start: nat, rest: string,
                  result: nat, end: nat)
    requires w < WORD && 2 <= base <= 16 && start <= |s| && s[start..] == Fill('0', k) + Digits(w, base, large) + rest
    requires Stops(rest, base)
    requires Begins(s, base0, base, start) && ReadAs(s, base0, result, end)
    ensures result == w && end == start + |Fill('0', k) + Digits(w, base, large)|
  {
    hide Digits, Fill, Value, Reads, Stops, Longest, Detect;
    DigitsValue(w, base, large);
    LeadingZeros(k, Digits(w, base, large), base);
    LongestIs(s, start, Fill('0', k) + Digits(w, base, large), rest, base, end);
    SmallWord(w);
  }

  lemma {:induction false} FillJoin(c: char, a: int, b: int)
    requires a >= 0 && b >= 0
    ensures Fill(c, a) + Fill(c, b) == Fill(c, a + b)
    decreases b
  {
    if b > 0 {
      FillJoin(c, a, b - 1);
      assert Fill(c, a) + (Fill(c, b - 1) + [c]) == (Fill(c, a) + Fill(c, b - 1)) + [c];
    } else {
      assert Fill(c, a) + [] == Fill(c, a);
    }
  }

  /** The text has no blanks before the number. */
  ghost predicate Tight(num: int, base: nat, size: int, precision: int, f: Flags)
    requires LONG_MIN <= num < WORD && 2 <= base <= 36
  {
    f.left || f.zeropad || size <= |SignOf(num, f)| + |PrefixOf(base, f)| + |Padded(num, base, precision, f)|
  }

  /** How many blanks come after it. */
  ghost function Blanks(num: int, base: nat, size: int, precision: int, f: Flags): nat
    requires LONG_MIN <= num < WORD && 2 <= base <= 36
  {
    if f.left then Max(0, size - |SignOf(num, f)| - |PrefixOf(base, f)| - |Padded(num, base, precision, f)|) else 0
  }

  lemma TightText(num: int, base: nat, size: int, precision: int, f: Flags) returns (k: int, blanks: string)
    requires LONG_MIN <= num < WORD && 2 <= base <= 36 && Tight(num, base, size, precision, f)
    ensures Text(num, base, size, precision, f) ==
      SignOf(num, f) + PrefixOf(base, f) + (Fill('0', k) + Digits(Magnitude(num, f), base, f.large)) + blanks
    ensures |blanks| == Blanks(num, base, size, precision, f) && forall i :: 0 <= i < |blanks| ==> blanks[i] == ' '
    ensures k >= 0
  {
    hide SignOf, PrefixOf, Digits, Magnitude, Fill;
    var (sign, prefix, digits) := (SignOf(num, f), PrefixOf(base, f), Digits(Magnitude(num, f), base, f.large));
    var zeros := Max(precision - |digits|, 0);
    FillNone('0', precision - |digits|);
    FillNone('0', 0);
    assert Padded(num, base, precision, f) == Fill('0', zeros) + digits;
    var fill := size - |sign| - |prefix| - |Padded(num, base, precision, f)|;
    blanks := if f.left then Fill(' ', fill) else [];
    FillIs(' ', fill);
    k := if !f.left && f.zeropad && fill > 0 then fill + zeros else zeros;
    if f.left {
      assert sign + prefix + (Fill('0', zeros) + digits) + blanks == Text(num, base, size, precision, f);
    } else if f.zeropad && fill > 0 {
      FillJoin('0', fill, zeros);
      Assoc3(sign + prefix, Fill('0', fill), Fill('0', zeros), digits);
      NoBlanks(sign + prefix + (Fill('0', k) + digits));
    } else {
      FillNone('0', fill);
      FillNone(' ', fill);
      assert [] + sign == sign && sign + prefix + [] == sign + prefix;
      NoBlanks(sign + prefix + (Fill('0', k) + digits));
    }
  }

  /** The same, with what follows. */
  lemma TightStart(num: int, base: nat, size: int, precision: int, f: Flags, rest: string)
    returns (k: int, rest': string)
    requires LONG_MIN <= num < WORD && 2 <= base <= 36 && Tight(num, base, size, precision, f) && Stops(rest, base)
    ensures k >= 0 && Stops(rest', base)
    ensures var t := Text(num, base, size, precision, f);
      var body := Fill('0', k) + Digits(Magnitude(num, f), base, f.large);
      && t + rest == SignOf(num, f) + (PrefixOf(base, f) + body + rest')
      && |t| - Blanks(num, base, size, precision, f) == |SignOf(num, f)| + |PrefixOf(base, f)| + |body|
  {
    hide *;
    var blanks;
    k, blanks := TightText(num, base, size, precision, f);
    rest' := blanks + rest;
    StopsAtBlank(blanks, rest, base);
    Assoc5(SignOf(num, f), PrefixOf(base, f), Fill('0', k) + Digits(Magnitude(num, f), base, f.large), blanks, rest);
  }

  lemma Assoc5(a: string, b: string, c: string, d: string, e: string)
    ensures (a + b + c + d) + e == a + (b + c + (d + e)) && |a + b + c + d| == |a| + |b| + |c| + |d|
  {
  }

  lemma NoBlanks(s: string)
    ensures s + [] == s
  {
  }

  /** A number stops at a blank. */
  lemma StopsAtBlank(blanks: string, rest: string, base: nat)
    requires Stops(rest, base) && forall i :: 0 <= i < |blanks| ==> blanks[i] == ' '
    ensures Stops(blanks + rest, base)
  {
    if blanks == [] {
      assert blanks + rest == rest;
    }
  }

  lemma Assoc3(a: string, b: string, c: string, d: string)
    ensures a + b + (c + d) == a + ((b + c) + d)
  {
  }

  lemma LooseText(num: int, base: nat, size: int, precision: int, f: Flags)
    requires LONG_MIN <= num < WORD && 2 <= base <= 36 && !Tight(num, base, size, precision, f)
    ensures var t := Text(num, base, size, precision, f); |t| > 0 && t[0] == ' '
    ensures Blanks(num, base, size, precision, f) == 0
  {
    var fill := size - |SignOf(num, f)| - |PrefixOf(base, f)| - |Padded(num, base, precision, f)|;
    FillIs(' ', fill);
    assert Fill(' ', fill)[0] == ' ';
  }

  lemma ReadIsDigit(s: string, start: nat, end: nat, base: nat, i: nat)
    requires Longest(s, start, end, base) && start <= i < end
    ensures Reads(s[i], base)
  {
    assert s[start..end][i - start] == s[i];
  }

  /** Nothing is read of what does not start with a digit. */
  lemma NothingRead(s: string, base: nat, result: nat, end: nat)
    requires |s| > 0 && !IsXdigit(s[0]) && ReadAs(s, base, result, end)
    ensures end == 0
  {
    hide AllRead;
    if end > 0 {
      ReadIsDigit(s, 0, end, if base == 0 then 10 else base, 0);
    }
  }

  lemma OneRead(s: string, base: nat, result: nat, end: nat)
    requires |s| > 1 && !IsXdigit(s[1]) && base > 0 && ReadAs(s, base, result, end)
    ensures end <= 1
  {
    hide AllRead;
    if end > 1 {
      ReadIsDigit(s, 0, end, base, 1);
    }
  }

  /** The prefix of an octal number is one more zero. */
  lemma PrefixZeros(base: nat, f: Flags, k: nat, digits: string) returns (k': nat)
    requires !(f.special && base == 16)
    ensures PrefixOf(base, f) + (Fill('0', k) + digits) == Fill('0', k') + digits
  {
    hide Fill;
    if f.special && base == 8 {
      k' := k + 1;
      FillJoin('0', 1, k);
      assert Fill('0', 1) == "0" by { OneZero(); }
    } else {
      k' := k;
    }
  }

  lemma OneZero()
    ensures Fill('0', 1) == "0"
  {
    assert Fill('0', 0) == [];
  }

  lemma HexStart(f: Flags, body: string, rest: string)
    requires f.special
    ensures var s := PrefixOf(16, f) + body + rest; |s| > 1 && !IsXdigit(s[1]) && |PrefixOf(16, f)| == 2
  {
    assert DigitChar(33, false) == 'x' && DigitChar(33, true) == 'X';
  }

  /** For every word and every base in which hexadecimal digits suffice, what number prints is
      read back, up to its end or the blanks there, if and only if it starts with a digit and
      there is no prefix of a hexadecimal number: the reader skips neither blanks nor a plus,
      takes no sign, and knows the prefix only if it is not told the base. */
  lemma WordRoundTrip(w: nat, base: nat, size: int, precision: int, f: Flags, rest: string, result: nat, end: nat)
    requires w < WORD && 2 <= base <= 16 && Stops(rest, base)
    requires ReadAs(Text(w, base, size, precision, f) + rest, base, result, end)
    ensures result == w && end == |Text(w, base, size, precision, f)| - Blanks(w, base, size, precision, f) <==>
      Tight(w, base, size, precision, f) && SignOf(w, f) == "" && !(f.special && base == 16)
  {
    hide Digits, Fill, ReadAs, Text, Tight, Stops, Blanks, PrefixOf, SignOf, Reads, Magnitude;
    if Tight(w, base, size, precision, f) {
      var k, rest' := TightStart(w, base, size, precision, f, rest);
      WordTight(w, base, f, k, rest', result, end);
    } else {
      LooseText(w, base, size, precision, f);
      NothingRead(Text(w, base, size, precision, f) + rest, base, result, end);
    }
  }

  lemma WordTight(w: nat, base: nat, f: Flags, k: nat, rest: string, result: nat, end: nat)
    requires w < WORD && 2 <= base <= 16 && Stops(rest, base)
    requires var body := Fill('0', k) + Digits(Magnitude(w, f), base, f.large);
      ReadAs(SignOf(w, f) + (PrefixOf(base, f) + body + rest), base, result, end)
    ensures var body := Fill('0', k) + Digits(Magnitude(w, f), base, f.large);
      result == w && end == |SignOf(w, f)| + |PrefixOf(base, f)| + |body| <==>
        SignOf(w, f) == "" && !(f.special && base == 16)
  {
    hide Digits, Fill, ReadAs, Stops, PrefixOf;
    var digits := Digits(Magnitude(w, f), base, f.large);
    var s := PrefixOf(base, f) + (Fill('0', k) + digits) + rest;
    BodyStarts(Magnitude(w, f), base, f.large, k);
    if SignOf(w, f) != "" {
      NothingRead(SignOf(w, f) + s, base, result, end);
    } else {
      assert SignOf(w, f) + s == s;
      if f.special && base == 16 {
        HexStart(f, Fill('0', k) + digits, rest);
        OneRead(s, base, result, end);
      } else {
        var k' := PrefixZeros(base, f, k, digits);
        assert s[0..] == s;
        BodyReads(w, base, f.large, k', s, base, 0, rest, result, end);
      }
    }
  }

  lemma SignedBody(m: nat, base: nat, large: bool, k: int, rest: string, negative: bool, result: int, end: nat)
    requires m < WORD && 2 <= base <= 16 && Stops(rest, base)
    requires WithSign(Fill('0', k) + Digits(m, base, large) + rest, negative, base, result, end)
    ensures result == Signed(if negative && m > 0 then WORD - m else m)
    ensures end == |Fill('0', k) + Digits(m, base, large)| + (if negative then 1 else 0)
  {
    hide Digits, Fill, ReadAs, Stops;
    var s := Fill('0', k) + Digits(m, base, large) + rest;
    var v: nat, e: nat :|
      ReadAs(s, base, v, e) && v < WORD && end == (if negative then e + 1 else e)
        && result == Signed(if negative && v > 0 then WORD - v else v);
    assert s[0..] == s;
    BodyReads(m, base, large, k, s, base, 0, rest, v, e);
  }

  /** For every long, signed or not, the most negative included; here a minus sign is read. */
  lemma LongRoundTrip(n: int, base: nat, size: int, precision: int, f: Flags, rest: string, result: int, end: nat)
    requires LONG_MIN <= n <= LONG_MAX && 2 <= base <= 16 && Stops(rest, base)
    requires ReadSignedAs(Text(n, base, size, precision, f) + rest, base, result, end)
    ensures result == n && end == |Text(n, base, size, precision, f)| - Blanks(n, base, size, precision, f) <==>
      Tight(n, base, size, precision, f) && (SignOf(n, f) == "" || SignOf(n, f) == "-") && !(f.special && base == 16)
  {
    hide Digits, Fill, ReadSignedAs, Text, Tight, Stops, Blanks, PrefixOf, SignOf, Reads, Magnitude;
    if Tight(n, base, size, precision, f) {
      var k, rest' := TightStart(n, base, size, precision, f, rest);
      LongTight(n, base, f, k, rest', result, end);
    } else {
      LooseText(n, base, size, precision, f);
      NothingSigned(Text(n, base, size, precision, f) + rest, base, result, end);
    }
  }

  lemma LongTight(n: int, base: nat, f: Flags, k: nat, rest: string, result: int, end: nat)
    requires LONG_MIN <= n <= LONG_MAX && 2 <= base <= 16 && Stops(rest, base)
    requires var body := Fill('0', k) + Digits(Magnitude(n, f), base, f.large);
      ReadSignedAs(SignOf(n, f) + (PrefixOf(base, f) + body + rest), base, result, end)
    ensures var body := Fill('0', k) + Digits(Magnitude(n, f), base, f.large);
      result == n && end == |SignOf(n, f)| + |PrefixOf(base, f)| + |body| <==>
        (SignOf(n, f) == "" || SignOf(n, f) == "-") && !(f.special && base == 16)
  {
    hide Digits, Fill, ReadSignedAs, WithSign, Stops, PrefixOf;
    var (digits, negative) := (Digits(Magnitude(n, f), base, f.large), SignOf(n, f) == "-");
    var s := PrefixOf(base, f) + (Fill('0', k) + digits) + rest;
    BodyStarts(Magnitude(n, f), base, f.large, k);
    if SignOf(n, f) != "" && !negative {
      NothingSigned(SignOf(n, f) + s, base, result, end);
    } else {
      StartsWithDigit(base, f, Fill('0', k) + digits, rest);
      SignTaken(SignOf(n, f) + s, s, negative, base, result, end);
      if f.special && base == 16 {
        HexStart(f, Fill('0', k) + digits, rest);
        OneSigned(s, negative, base, result, end);
      } else {
        var k' := PrefixZeros(base, f, k, digits);
        SignedBody(Magnitude(n, f), base, f.large, k', rest, negative, result, end);
      }
    }
  }

  lemma NothingSigned(s: string, base: nat, result: int, end: nat)
    requires |s| > 0 && !IsXdigit(s[0]) && s[0] != '-' && ReadSignedAs(s, base, result, end)
    ensures end == 0
  {
    hide ReadAs;
    var v: nat, e: nat :| ReadAs(s, base, v, e) && end == e;
    NothingRead(s, base, v, e);
  }

  lemma OneSigned(s: string, negative: bool, base: nat, result: int, end: nat)
    requires |s| > 1 && !IsXdigit(s[1]) && base > 0 && WithSign(s, negative, base, result, end)
    ensures end <= if negative then 2 else 1
  {
    hide ReadAs;
    var v: nat, e: nat :| ReadAs(s, base, v, e) && end == (if negative then e + 1 else e);
    OneRead(s, base, v, e);
  }

  lemma SignTaken(t: string, s: string, negative: bool, base: nat, result: int, end: nat)
    requires t == (if negative then "-" else "") + s && |s| > 0 && s[0] != '-' && ReadSignedAs(t, base, result, end)
    ensures WithSign(s, negative, base, result, end)
  {
    hide WithSign;
    if negative {
      assert t[0] == '-' && t[1..] == s;
    } else {
      assert t == s;
    }
  }

  lemma StartsWithDigit(base: nat, f: Flags, body: string, rest: string)
    requires body != [] && IsXdigit(body[0])
    ensures var s := PrefixOf(base, f) + body + rest; |s| > 0 && IsXdigit(s[0])
  {
  }

  lemma BodyStarts(w: nat, base: nat, large: bool, k: int)
    requires 2 <= base <= 16
    ensures var body := Fill('0', k) + Digits(w, base, large); body != [] && IsXdigit(body[0])
  {
    DigitsValue(w, base, large);
    LeadingZeros(k, Digits(w, base, large), base);
    var body := Fill('0', k) + Digits(w, base, large);
    assert Reads(body[0], base);
  }

  lemma DetectOctal(s: string)
    requires |s| > 1 && s[0] == '0' && s[1] != 'x'
    ensures Detect(s) == (8, 1)
  {
  }

  lemma DetectHex(s: string)
    requires |s| > 2 && s[0] == '0' && s[1] == 'x' && IsXdigit(s[2])
    ensures Detect(s) == (16, 2)
  {
  }

  lemma OctalPrefix(w: nat, large: bool, k: int, rest: string, result: nat, end: nat)
    requires w < WORD && Stops(rest, 8) && ReadAs("0" + (Fill('0', k) + Digits(w, 8, large)) + rest, 0, result, end)
    ensures result == w && end == 1 + |Fill('0', k) + Digits(w, 8, large)|
  {
    hide Digits, Fill, ReadAs, Stops, Detect;
    BodyStarts(w, 8, large, k);
    var body := Fill('0', k) + Digits(w, 8, large);
    var s := "0" + body + rest;
    assert s[1..] == body + rest && s[1] == body[0] && s[0] == '0';
    DetectOctal(s);
    BodyReads(w, 8, large, k, s, 0, 1, rest, result, end);
  }

  lemma HexPrefix(w: nat, k: int, rest: string, result: nat, end: nat)
    requires w < WORD && Stops(rest, 16) && ReadAs("0x" + (Fill('0', k) + Digits(w, 16, false)) + rest, 0, result, end)
    ensures result == w && end == 2 + |Fill('0', k) + Digits(w, 16, false)|
  {
    BodyStarts(w, 16, false, k);
    hide Digits, Fill, ReadAs, Stops;
    var body := Fill('0', k) + Digits(w, 16, false);
    var s := "0x" + body + rest;
    hide Detect;
    assert s[2..] == body + rest && s[2] == body[0] && s[1] == 'x' && s[0] == '0';
    DetectHex(s);
    BodyReads(w, 16, false, k, s, 0, 2, rest, result, end);
  }

  lemma LargePrefix(body: string, rest: string, result: nat, end: nat)
    requires ReadAs("0X" + body + rest, 0, result, end)
    ensures result == 0 && end == 1
  {
    var s := "0X" + body + rest;
    assert s[1] == 'X' && Detect(s) == (8, 1);
    assert s[1..] == [] + s[1..] && s[1..][0] == 'X' && !Reads('X', 8);
    LongestIs(s, 1, [], s[1..], 8, end);
  }

  /** With a prefix, base zero finds the base, unless something is before it or it is 0X, which
      the reader does not know. */
  lemma PrefixRoundTrip(w: nat, base: nat, size: int, precision: int, f: Flags, rest: string, result: nat, end: nat)
    requires w < WORD && (base == 8 || base == 16) && f.special && Stops(rest, base)
    requires ReadAs(Text(w, base, size, precision, f) + rest, 0, result, end)
    ensures result == w && end == |Text(w, base, size, precision, f)| - Blanks(w, base, size, precision, f) <==>
      Tight(w, base, size, precision, f) && SignOf(w, f) == "" && (base == 8 || !f.large)
  {
    hide Digits, Fill, ReadAs, Text, Tight, Stops, Blanks, PrefixOf, SignOf, Reads, Magnitude;
    if Tight(w, base, size, precision, f) {
      var k, rest' := TightStart(w, base, size, precision, f, rest);
      PrefixRead(w, base, f, k, rest', result, end);
    } else {
      LooseText(w, base, size, precision, f);
      NothingRead(Text(w, base, size, precision, f) + rest, 0, result, end);
    }
  }

  lemma PrefixRead(w: nat, base: nat, f: Flags, k: nat, rest: string, result: nat, end: nat)
    requires w < WORD && (base == 8 || base == 16) && f.special && Stops(rest, base)
    requires var body := Fill('0', k) + Digits(Magnitude(w, f), base, f.large);
      ReadAs(SignOf(w, f) + (PrefixOf(base, f) + body + rest), 0, result, end)
    ensures var body := Fill('0', k) + Digits(Magnitude(w, f), base, f.large);
      result == w && end == |SignOf(w, f)| + |PrefixOf(base, f)| + |body| <==>
        SignOf(w, f) == "" && (base == 8 || !f.large)
  {
    hide Digits, Fill, ReadAs, Stops;
    var body := Fill('0', k) + Digits(Magnitude(w, f), base, f.large);
    var s := PrefixOf(base, f) + body + rest;
    assert DigitChar(33, false) == 'x' && DigitChar(33, true) == 'X';
    if SignOf(w, f) != "" {
      NothingRead(SignOf(w, f) + s, 0, result, end);
    } else {
      assert SignOf(w, f) + s == s;
      if base == 8 {
        OctalPrefix(w, f.large, k, rest, result, end);
      } else if !f.large {
        assert PrefixOf(base, f) == "0x";
        HexPrefix(w, k, rest, result, end);
      } else {
        assert PrefixOf(base, f) == "0X";
        LargePrefix(body, rest, result, end);
      }
    }
  }

  /** The first digit of a number is not zero. */
  lemma {:induction false} FirstDigit(n: nat, base: nat, large: bool)
    requires n > 0 && 2 <= base <= 16
    ensures Digits(n, base, large) != [] && Digits(n, base, large)[0] != '0'
    decreases n
  {
    Quotient(n, base);
    if n < base {
      DigitBack(n, base, large);
    } else {
      SmallDigit(n, base);
      FirstDigit(n / base, base, large);
    }
  }

  /** Without prefix and leading zeros, base zero reads a decimal number back. */
  lemma DecimalRoundTrip(w: nat, f: Flags, rest: string, result: nat, end: nat)
    requires 0 < w < WORD && SignOf(w, f) == "" && !f.special && Stops(rest, 10)
    requires ReadAs(Text(w, 10, -1, -1, f) + rest, 0, result, end)
    ensures result == w && end == |Text(w, 10, -1, -1, f)|
  {
    var digits := Digits(w, 10, f.large);
    assert Magnitude(w, f) == w;
    PlainText(w, f);
    FirstDigit(w, 10, f.large);
    assert (digits + rest)[0] != '0' && Detect(digits + rest) == (10, 0);
    hide Digits, Fill, ReadAs, Stops, Text;
    FillNone('0', 0);
    assert Fill('0', 0) + digits == digits && (digits + rest)[0..] == digits + rest;
    BodyReads(w, 10, f.large, 0, digits + rest, 0, 0, rest, result, end);
  }

  lemma PlainText(w: nat, f: Flags)
    requires w < WORD && SignOf(w, f) == "" && Magnitude(w, f) == w && !f.special
    ensures Text(w, 10, -1, -1, f) == Digits(w, 10, f.large)
  {
    hide Digits, Magnitude, SignOf;
    var digits := Digits(w, 10, f.large);
    FillNone('0', -1 - |digits|);
    assert Padded(w, 10, -1, f) == digits;
    FillNone('0', -1 - |digits|);
    FillNone(' ', -1 - |digits|);
    assert [] + digits == digits && digits + [] == digits && "" + "" + digits == digits;
  }

  lemma SomePieces()
    ensures Digits(42, 10, false) == "42" && Digits(42, 16, false) == "2a"
    ensures Fill('0', 2) == "00" && Fill(' ', 2) == "  " && Fill(' ', 3) == "   "
    ensures Fill('0', -3) == [] && |"42"| == 2
  {
  }

  /** As the C library has it for %+05d. */
  lemma PlusText()
    ensures Text(42, 10, 5, -1, Flags(true, true, true, true, false, false, false)) == "+0042"
  {
    hide Digits, Fill;
    SomePieces();
    var f := Flags(true, true, true, true, false, false, false);
    assert Padded(42, 10, -1, f) == "42" by { assert [] + "42" == "42"; }
    assert SignOf(42, f) == "+" && PrefixOf(10, f) == "";
    assert "+" + "" + "00" + "42" == "+0042";
  }

  /** For %-5d. */
  lemma LeftText()
    ensures Text(-42, 10, 5, -1, Flags(false, true, false, false, true, false, false)) == "-42  "
  {
    hide Digits, Fill;
    SomePieces();
    var f := Flags(false, true, false, false, true, false, false);
    assert Padded(-42, 10, -1, f) == "42" by { assert [] + "42" == "42"; }
    assert SignOf(-42, f) == "-" && PrefixOf(10, f) == "";
    assert "-" + "" + "42" + "  " == "-42  ";
  }

  /** For %5x. */
  lemma RightText()
    ensures Text(42, 16, 5, -1, Flags(false, false, false, false, false, false, false)) == "   2a"
  {
    hide Digits, Fill;
    SomePieces();
    var f := Flags(false, false, false, false, false, false, false);
    assert Padded(42, 16, -1, f) == "2a" by { assert [] + "2a" == "2a"; }
    assert SignOf(42, f) == "" && PrefixOf(16, f) == "";
    assert "   " + "" + "" + "2a" == "   2a";
  }
}
