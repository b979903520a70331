/**
 `muduo::detail::FixedBuffer` and the integer formatting of `muduo::LogStream`: digits produced
 without negating the value, then reversed in place, proved to be the canonical numeral.
 */
module LogStreams {
  import opened CInt

  // ---------- Numerals ----------

  const DIGITS_HEX: string := "0123456789ABCDEF"
  /** Indexed from its middle, so that a negative remainder finds its digit. */
  const DIGITS: string := "9876543210123456789"

  /** The numeral of `n`, most significant digit first. */
  function Numeral(n: nat, radix: nat): (s: string)
    requires 2 <= radix <= 16
    ensures |s| > 0
  {
    if n < radix then [DIGITS_HEX[n]]
    else
      Quotient(n, radix);
      Numeral(n / radix, radix) + [DIGITS_HEX[n % radix]]
  }

  function Magnitude(v: int): nat {
    if v < 0 then -v else v
  }

  /** The decimal text of an integer. */
  function Text(v: int): string {
    if v < 0 then ['-'] + Numeral(-v, 10) else Numeral(v, 10)
  }

  function DigitValue(c: char): nat {
    if '0' <= c <= '9' then (c - '0') as nat
    else if 'A' <= c <= 'F' then (c - 'A') as nat + 10
    else 16
  }

  /** What a numeral denotes, independently of how it was made. */
  function Denotes(s: string, radix: nat): nat {
    if s == [] then 0 else Denotes(s[..|s| - 1], radix) * radix + DigitValue(s[|s| - 1])
  }

  function ParseDecimal(s: string): int {
    if s != [] && s[0] == '-' then -(Denotes(s[1..], 10) as int) else Denotes(s, 10)
  }

  /** Digits only, and no leading zero except in zero itself. */
  predicate Canonical(s: string, radix: nat) {
    && |s| > 0
    && (forall i :: 0 <= i < |s| ==> DigitValue(s[i]) < radix)
    && (s[0] == '0' ==> |s| == 1)
  }

  predicate CanonicalDecimal(s: string) {
    if s != [] && s[0] == '-' then Canonical(s[1..], 10) && s[1] != '0' else Canonical(s, 10)
  }

  lemma {:induction false} NumeralDenotes(n: nat, radix: nat)
    requires 2 <= radix <= 16
    ensures Denotes(Numeral(n, radix), radix) == n && Canonical(Numeral(n, radix), radix)
    ensures Numeral(n, radix)[0] == '0' ==> n == 0
    decreases n
  {
    if n < radix {
      OneDigit(n, radix);
    } else {
      hide Numeral, Denotes, Canonical;
      var high, low := NumeralSplit(n, radix);
      NumeralDenotes(high, radix);
      AppendDigit(Numeral(high, radix), radix, low);
    }
  }

  lemma OneDigit(n: nat, radix: nat)
    requires 2 <= radix <= 16 && n < radix
    ensures var s := ["0123456789ABCDEF"[n]];
            Numeral(n, radix) == s && Denotes(s, radix) == n && Canonical(s, radix) && (s[0] == '0' ==> n == 0)
  {
    var s := [DIGITS_HEX[n]];
    assert s[..0] == [];
    assert Denotes([], radix) == 0;
  }

  lemma NumeralSplit(n: nat, radix: nat) returns (high: nat, low: nat)
    requires 2 <= radix <= 16 && n >= radix
    ensures 0 < high < n && low < radix && high * radix + low == n
    ensures Numeral(n, radix) == Numeral(high, radix) + [DIGITS_HEX[low]]
  {
    Quotient(n, radix);
    DivMod(n, radix);
    high, low := n / radix, n % radix;
    assert Numeral(n, radix) == Numeral(high, radix) + [DIGITS_HEX[low]];
    hide Numeral;
  }

  lemma DivMod(n: nat, radix: nat)
    requires radix > 0
    ensures n / radix * radix + n % radix == n && 0 <= n % radix < radix && 0 <= n / radix
    ensures n >= radix ==> n / radix > 0
  {
    assert n / radix == 0 ==> n < radix;
  }

  lemma AppendDigit(high: string, radix: nat, digit: nat)
    requires 2 <= radix <= 16 && digit < radix && Canonical(high, radix) && high[0] != '0'
    ensures var s := high + [DIGITS_HEX[digit]];
            Canonical(s, radix) && s[0] != '0' && Denotes(s, radix) == Denotes(high, radix) * radix + digit
  {
    var s := high + [DIGITS_HEX[digit]];
    assert s[..|s| - 1] == high;
  }

  lemma NumeralOfAppended(n: nat, h: nat, radix: nat, last: nat)
    requires 2 <= radix <= 16 && 0 < h && last < radix && n == h * radix + last
    ensures Numeral(n, radix) == Numeral(h, radix) + [DIGITS_HEX[last]]
    ensures n > 0
  {
    DivideBack(h, radix, last);
  }

  /** A canonical numeral is the numeral of what it denotes: there is only one. */
  lemma {:induction false} CanonicalIsNumeral(s: string, radix: nat)
    requires 2 <= radix <= 16 && Canonical(s, radix)
    ensures Numeral(Denotes(s, radix), radix) == s && (s[0] != '0' ==> Denotes(s, radix) > 0)
    decreases |s|, 1
  {
    var high, last := s[..|s| - 1], DigitValue(s[|s| - 1]);
    LastDigit(s, radix);
    if |s| > 1 {
      AppendedIsNumeral(s, radix, high, last);
    }
  }

  lemma AppendedIsNumeral(s: string, radix: nat, high: string, last: nat)
    requires 2 <= radix <= 16 && Canonical(high, radix) && high[0] != '0' && last < radix
    requires s == high + [DIGITS_HEX[last]] && Denotes(s, radix) == Denotes(high, radix) * radix + last
    ensures Numeral(Denotes(s, radix), radix) == s && Denotes(s, radix) > 0
    decreases |high| + 1, 0
  {
    hide Numeral, Denotes;
    CanonicalIsNumeral(high, radix);
    NumeralOfAppended(Denotes(s, radix), Denotes(high, radix), radix, last);
  }

  lemma LastDigit(s: string, radix: nat)
    requires 2 <= radix <= 16 && Canonical(s, radix)
    ensures var high, last := s[..|s| - 1], DigitValue(s[|s| - 1]);
            && last < radix && DIGITS_HEX[last] == s[|s| - 1]
            && Denotes(s, radix) == Denotes(high, radix) * radix + last
            && (|s| > 1 ==> Canonical(high, radix) && high[0] == s[0] != '0')
            && (|s| == 1 ==> Denotes(s, radix) == last && (last == 0 <==> s[0] == '0'))
  {
    assert |s| == 1 ==> Denotes(s[..|s| - 1], radix) == 0;
  }

  lemma DivideBack(h: nat, radix: nat, last: nat)
    requires 0 < h && last < radix
    ensures (h * radix + last) / radix == h && (h * radix + last) % radix == last && h * radix + last >= radix
  {
    var n := h * radix + last;
    DivMod(n, radix);
    SmallMultiple(radix, n / radix - h) by {
      assert radix * (n / radix - h) == n / radix * radix - h * radix;
    }
    assert h * radix >= radix by {
      assert (h - 1) * radix >= 0;
    }
  }

  lemma SmallMultiple(radix: int, d: int)
    requires -radix < radix * d < radix
    ensures d == 0
  {
    assert d >= 1 ==> radix * d >= radix;
    assert d <= -1 ==> radix * d <= -radix;
  }

  /** The text of a value parses back to it, is canonical, and has a sign exactly for negative values. */
  lemma TextRoundTrip(v: int)
    ensures ParseDecimal(Text(v)) == v && CanonicalDecimal(Text(v))
    ensures Text(v)[0] == '-' <==> v < 0
  {
    NumeralDenotes(Magnitude(v), 10);
    if v < 0 {
      assert Text(v)[1..] == Numeral(-v, 10);
    }
  }

  /** Every canonical decimal is the text of the value it parses to. */
  lemma ParseRoundTrip(s: string)
    requires CanonicalDecimal(s)
    ensures Text(ParseDecimal(s)) == s
  {
    if s[0] == '-' {
      CanonicalIsNumeral(s[1..], 10);
    } else {
      CanonicalIsNumeral(s, 10);
    }
  }

  function Pow(b: nat, k: nat): nat {
    if k == 0 then 1 else b * Pow(b, k - 1)
  }

  lemma {:induction false} NumeralLength(n: nat, radix: nat, k: nat)
    requires 2 <= radix <= 16 && k > 0 && n < Pow(radix, k)
    ensures |Numeral(n, radix)| <= k
    decreases k
  {
    if n >= radix {
      assert k > 1 by {
        assert Pow(radix, 1) == radix * Pow(radix, 0);
      }
      QuotientBound(n, radix, Pow(radix, k - 1));
      NumeralLength(n / radix, radix, k - 1);
    }
  }

  lemma QuotientBound(n: nat, radix: nat, p: nat)
    requires radix > 0 && n < radix * p
    ensures n / radix < p
  {
    DivMod(n, radix);
    var q := n / radix;
    assert q >= p ==> q * radix >= p * radix;
  }

  lemma {:induction false} PowSum(b: nat, j: nat, k: nat)
    ensures Pow(b, j + k) == Pow(b, j) * Pow(b, k)
    decreases j
  {
    if j > 0 {
      PowSum(b, j - 1, k);
      assert b * (Pow(b, j - 1) * Pow(b, k)) == (b * Pow(b, j - 1)) * Pow(b, k);
    }
  }

  /** A value of a 64-bit integer type, signed or unsigned. */
  predicate In64Bits(v: int) {
    -0x8000_0000_0000_0000 <= v < 0x1_0000_0000_0000_0000
  }

  lemma Powers()
    ensures Pow(10, 19) == 10_000_000_000_000_000_000 && Pow(10, 20) == 100_000_000_000_000_000_000
    ensures Pow(16, 16) == 0x1_0000_0000_0000_0000
  {
    assert Pow(10, 1) == 10 && Pow(10, 2) == 100 && Pow(10, 3) == 1000 && Pow(10, 4) == 10000 && Pow(10, 5) == 100000;
    PowSum(10, 4, 5);
    PowSum(10, 5, 5);
    PowSum(10, 9, 10);
    PowSum(10, 10, 10);
    assert Pow(16, 1) == 16 && Pow(16, 2) == 256 && Pow(16, 3) == 4096 && Pow(16, 4) == 65536;
    PowSum(16, 4, 4);
    PowSum(16, 8, 8);
  }

  /** Twenty characters are enough for any 64-bit integer, sign included, and sixteen for a pointer in hexadecimal. */
  lemma TextLength(v: int)
    requires In64Bits(v)
    ensures |Text(v)| <= 20 && |Numeral(Magnitude(v), 10)| <= 20
    ensures v >= 0 ==> |Numeral(v, 16)| <= 16
  {
    Powers();
    if v < 0 {
      NumeralLength(-v, 10, 19);
    } else {
      NumeralLength(v, 10, 20);
      NumeralLength(v, 16, 16);
    }
  }

  // ---------- Conversion in place ----------

  function Reversed(s: string): (r: string)
    ensures |r| == |s|
  {
    if s == [] then [] else Reversed(s[1..]) + [s[0]]
  }

  lemma {:induction false} ReversedAt(s: string, i: nat)
    requires i < |s|
    ensures Reversed(s)[i] == s[|s| - 1 - i]
  {
    if i < |s| - 1 {
      ReversedAt(s[1..], i);
    }
  }

  /** `std::reverse` of `buf[first..last]`. */
  method Reverse(buf: array<char>, first: nat, last: nat)
    requires first <= last <= buf.Length
    modifies buf
    ensures buf[first..last] == Reversed(old(buf[first..last]))
    ensures forall k :: 0 <= k < first || last <= k < buf.Length ==> buf[k] == old(buf[k])
  {
    var lo, hi := first, last;
    while lo < hi
      invariant first <= lo <= hi + 1 && hi <= last && lo - first == last - hi
      invariant forall k :: first <= k < lo || hi <= k < last ==> buf[k] == old(buf[first + last - 1 - k])
      invariant forall k :: lo <= k < hi ==> buf[k] == old(buf[k])
      invariant forall k :: 0 <= k < first || last <= k < buf.Length ==> buf[k] == old(buf[k])
    {
      buf[lo], buf[hi - 1] := buf[hi - 1], buf[lo];
      lo, hi := lo + 1, hi - 1;
    }
    ghost var was, now := old(buf[first..last]), buf[first..last];
    forall k | 0 <= k < |was| ensures now[k] == was[|was| - 1 - k] {
      assert now[k] == buf[first + k];
      assert was[|was| - 1 - k] == old(buf[last - 1 - k]);
    }
    MirrorIsReversed(was, now);
  }

  lemma MirrorIsReversed(was: string, now: string)
    requires |now| == |was| && forall k :: 0 <= k < |was| ==> now[k] == was[|was| - 1 - k]
    ensures now == Reversed(was)
  {
    forall k | 0 <= k < |was| ensures now[k] == Reversed(was)[k] {
      ReversedAt(was, k);
    }
    hide Reversed;
  }

  /** The digits still to be produced from `i`; none once the loop has stopped. */
  function Rest(i: int, more: bool, radix: nat): string
    requires 2 <= radix <= 16
  {
    if more then Numeral(Magnitude(i), radix) else []
  }

  /** One more digit: the low digit of `i` goes behind those produced, the quotient remains. */
  lemma NextDigit(i: int, produced: string, radix: nat)
    requires 2 <= radix <= 16
    ensures Magnitude(Quot(i, radix)) == Magnitude(i) / radix
    ensures Magnitude(Rem(i, radix)) == Magnitude(i) % radix < radix
    ensures Magnitude(i) / radix < Magnitude(i) || i == 0
    ensures Rest(i, true, radix) + Reversed(produced)
         == Rest(Quot(i, radix), Quot(i, radix) != 0, radix) + Reversed(produced + [DIGITS_HEX[Magnitude(i) % radix]])
  {
    MagnitudeParts(i, radix);
    Quotient(Magnitude(i), radix);
    var digit := DIGITS_HEX[Magnitude(i) % radix];
    LastOfRest(i, radix);
    var rest := Rest(Quot(i, radix), Quot(i, radix) != 0, radix);
    hide Rest, Quot, Rem, Magnitude, Numeral;
    ReversedAppend(produced, digit);
    hide Reversed;
    assert rest + [digit] + Reversed(produced) == rest + ([digit] + Reversed(produced));
  }

  /** The truncating quotient and remainder of a value of either sign are those of its magnitude. */
  lemma MagnitudeParts(i: int, radix: nat)
    requires 2 <= radix
    ensures Magnitude(Quot(i, radix)) == Magnitude(i) / radix
    ensures Magnitude(Rem(i, radix)) == Magnitude(i) % radix < radix
  {
    hide Rem;
    var n := Magnitude(i);
    DivMod(n, radix);
    assert Quot(i, radix) == if i >= 0 then n / radix else -(n / radix);
    assert Rem(i, radix) == if i >= 0 then n % radix else -(n % radix);
    hide Quot;
  }

  lemma LastOfRest(i: int, radix: nat)
    requires 2 <= radix <= 16
    ensures Magnitude(i) % radix < radix
    ensures Rest(i, true, radix)
         == Rest(Quot(i, radix), Quot(i, radix) != 0, radix) + [DIGITS_HEX[Magnitude(i) % radix]]
  {
    hide Rem;
    MagnitudeParts(i, radix);
    var n := Magnitude(i);
    Quotient(n, radix);
    assert Quot(i, radix) == 0 <==> n / radix == 0;
    hide Quot, Magnitude;
    if n < radix {
      OneDigit(n, radix);
      assert [] + [DIGITS_HEX[n]] == [DIGITS_HEX[n]];
    }
  }

  lemma DigitChar(lsd: int)
    requires -9 <= lsd <= 9
    ensures DIGITS[9 + lsd] == DIGITS_HEX[Magnitude(lsd)]
  {
  }

  lemma ReversedAppend(s: string, c: char)
    ensures Reversed(s + [c]) == [c] + Reversed(s)
  {
    if s == [] {
    } else {
      ReversedAppend(s[1..], c);
      assert (s + [c])[1..] == s[1..] + [c];
    }
  }

  lemma Quotient(n: nat, radix: nat)
    requires 2 <= radix
    ensures n / radix == 0 <==> n < radix
    ensures n < radix ==> n % radix == n
    ensures n > 0 ==> n / radix < n
  {
    DivMod(n, radix);
    var q := n / radix;
    assert q > 0 ==> q * radix >= q + q;
  }

  lemma NothingReversed(s: string)
    ensures Reversed("") == "" && s + Reversed("") == s
  {
  }

  /** The digit loop of `convert`: least significant digit first, whatever the sign. */
  method WriteDigits(buf: array<char>, at: nat, value: int) returns (p: nat)
    requires at + |Numeral(Magnitude(value), 10)| <= buf.Length
    modifies buf
    ensures p == at + |Numeral(Magnitude(value), 10)|
    ensures Reversed(buf[at..p]) == Numeral(Magnitude(value), 10)
    ensures forall k :: 0 <= k < at || p <= k < buf.Length ==> buf[k] == old(buf[k])
  {
    hide Numeral, Quot, Rem, Reversed;
    ghost var digits, produced := Numeral(Magnitude(value), 10), "";
    NothingReversed(digits);
    var i, more := value, true;
    p := at;
    while more
      invariant at <= p <= at + |digits| && buf[at..p] == produced
      invariant digits == Rest(i, more, 10) + Reversed(produced)
      invariant forall k :: 0 <= k < at || p <= k < buf.Length ==> buf[k] == old(buf[k])
      decreases more, Magnitude(i)
    {
      assert |digits| == |Rest(i, more, 10)| + |produced|;
      NextDigit(i, produced, 10);
      var lsd := Rem(i, 10);
      i := Quot(i, 10);
      DigitChar(lsd);
      buf[p] := DIGITS[9 + lsd];
      p := p + 1;
      produced := produced + [DIGITS[9 + lsd]];
      more := i != 0;
    }
  }

  /** `convert`: writes the text of `value` and a terminating NUL at `at`, at most 21 characters in all. */
  method Convert(buf: array<char>, at: nat, value: int) returns (len: nat)
    requires In64Bits(value) && at + 21 <= buf.Length
    modifies buf
    ensures len <= 20 && buf[at + len] == '\0'
    ensures buf[at..at + len] == Text(value)
    ensures forall k :: 0 <= k < at || at + len < k < buf.Length ==> buf[k] == old(buf[k])
  {
    hide Text, Reversed, Numeral, In64Bits;
    var p := WriteReversed(buf, at, value);
    Reverse(buf, at, p);
    len := p - at;
  }

  /** All of `convert` but the final reversal. */
  method WriteReversed(buf: array<char>, at: nat, value: int) returns (p: nat)
    requires In64Bits(value) && at + 21 <= buf.Length
    modifies buf
    ensures at <= p <= at + 20 && buf[p] == '\0'
    ensures Reversed(buf[at..p]) == Text(value)
    ensures forall k :: 0 <= k < at || p < k < buf.Length ==> buf[k] == old(buf[k])
  {
    TextLength(value);
    hide Numeral, Reversed, Text, In64Bits, Magnitude;
    p := WriteDigits(buf, at, value);
    ReversedText(buf[at..p], value);
    p := WriteSign(buf, at, p, value < 0);
  }

  lemma ReversedText(produced: string, value: int)
    requires Reversed(produced) == Numeral(Magnitude(value), 10)
    ensures Reversed(produced + if value < 0 then ['-'] else []) == Text(value)
  {
    ReversedAppend(produced, '-');
    assert produced + [] == produced;
  }

  /** The sign goes behind the digits, which are still reversed; then the terminating NUL. */
  method WriteSign(buf: array<char>, at: nat, p: nat, negative: bool) returns (end: nat)
    requires at <= p && (if negative then p + 1 else p) < buf.Length
    modifies buf
    ensures end == if negative then p + 1 else p
    ensures buf[at..end] == old(buf[at..p]) + if negative then ['-'] else []
    ensures buf[end] == '\0'
    ensures forall k :: 0 <= k < at || end < k < buf.Length ==> buf[k] == old(buf[k])
  {
    end := p;
    if negative {
      buf[end] := '-';
      end := end + 1;
    }
    buf[end] := '\0';
  }

  /** `convertHex`: the same for an address, in base sixteen, at most 17 characters in all. */
  method ConvertHex(buf: array<char>, at: nat, value: nat) returns (len: nat)
    requires In64Bits(value) && at + 17 <= buf.Length
    modifies buf
    ensures len <= 16 && buf[at..at + len] == Numeral(value, 16) && buf[at + len] == '\0'
    ensures forall k :: 0 <= k < at || at + len < k < buf.Length ==> buf[k] == old(buf[k])
  {
    TextLength(value);
    var p := WriteHexDigits(buf, at, value);
    buf[p] := '\0';
    Reverse(buf, at, p);
    len := p - at;
  }

  method WriteHexDigits(buf: array<char>, at: nat, value: nat) returns (p: nat)
    requires at + |Numeral(value, 16)| <= buf.Length
    modifies buf
    ensures p == at + |Numeral(value, 16)|
    ensures Reversed(buf[at..p]) == Numeral(value, 16)
    ensures forall k :: 0 <= k < at || p <= k < buf.Length ==> buf[k] == old(buf[k])
  {
    hide Numeral;
    ghost var digits, produced := Numeral(value, 16), "";
    var i, more := value, true;
    p := at;
    while more
      invariant at <= p <= at + |digits| && buf[at..p] == produced
      invariant digits == Rest(i, more, 16) + Reversed(produced)
      invariant forall k :: 0 <= k < at || p <= k < buf.Length ==> buf[k] == old(buf[k])
      decreases more, i
    {
      assert |digits| == |Rest(i, more, 16)| + |produced|;
      NextDigit(i, produced, 16);
      var lsd := i % 16;
      i := i / 16;
      buf[p] := DIGITS_HEX[lsd];
      p := p + 1;
      produced := produced + [DIGITS_HEX[lsd]];
      more := i != 0;
    }
  }

  lemma PrefixKept(prefix: string, whole: string, rest: string)
    requires |whole| == |prefix| + |rest| && whole[..|prefix|] == prefix && whole[|prefix|..] == rest
    ensures whole == prefix + rest
  {
  }

  // ---------- FixedBuffer and LogStream ----------

  const K_MAX_NUMERIC_SIZE: nat := 32

  class FixedBuffer {
    const data: array<char>
    var cur: nat

    ghost predicate Valid()
      reads this
    {
      cur <= data.Length
    }

    ghost function Contents(): string
      reads this, data
      requires Valid()
    {
      data[..cur]
    }

    constructor (size: nat)
      ensures Valid() && fresh(data) && data.Length == size && Contents() == ""
    {
      data := new char[size];
      cur := 0;
    }

    function Avail(): nat
      requires Valid()
      reads this
    {
      data.Length - cur
    }

    /** Appends all of `buf`, or nothing when it would leave no room to spare. */
    method Append(buf: string)
      requires Valid()
      modifies this`cur, data
      ensures Valid()
      ensures Contents() == if old(Avail()) > |buf| then old(Contents()) + buf else old(Contents())
    {
      if Avail() > |buf| {
        for i := 0 to |buf|
          invariant cur == old(cur) && data[..cur] == old(data[..cur]) && data[cur..cur + i] == buf[..i]
        {
          data[cur + i] := buf[i];
          assert data[cur..cur + i + 1] == data[cur..cur + i] + [buf[i]];
          assert buf[..i + 1] == buf[..i] + [buf[i]];
        }
        cur := cur + |buf|;
        assert data[..cur] == old(data[..cur]) + buf;
      }
    }

    method Reset()
      requires Valid()
      modifies this`cur
      ensures Valid() && Contents() == "" && Avail() == data.Length
    {
      cur := 0;
    }

    /** `LogStream::formatInteger`: the whole numeral, or nothing; never past the end of the buffer. */
    method FormatInteger(v: int)
      requires Valid() && In64Bits(v)
      modifies this`cur, data
      ensures Valid()
      ensures Contents() == old(Contents()) + if old(Avail()) >= 32 then Text(v) else ""
    {
      hide Text;
      if Avail() >= K_MAX_NUMERIC_SIZE {
        var len := Convert(data, cur, v);
        assert data[..cur] == old(data[..cur]);
        assert data[..cur + len] == data[..cur] + data[cur..cur + len];
        cur := cur + len;
      }
    }

    /** `operator<<(const void*)`. */
    method FormatPointer(v: nat)
      requires Valid() && In64Bits(v)
      modifies this`cur, data
      ensures Valid()
      ensures Contents() == old(Contents()) + if old(Avail()) >= 32 then "0x" + Numeral(v, 16) else ""
    {
      hide Numeral, In64Bits;
      if Avail() >= K_MAX_NUMERIC_SIZE {
        ghost var before := data[..cur];
        data[cur] := '0';
        data[cur + 1] := 'x';
        assert data[..cur + 2] == before + "0x";
        var len := ConvertHex(data, cur + 2, v);
        PrefixKept(before + "0x", data[..cur + 2 + len], Numeral(v, 16)) by {
          assert data[..cur + 2] == before + "0x";
        }
        cur := cur + len + 2;
      }
    }
  }
}
