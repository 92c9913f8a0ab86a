/** The three JavaScript string primitives the widget relies on, written out:
    String.prototype.trim (task text), Number.prototype.toString on a
    non-negative integer and String.prototype.padStart (the timer display). */
module Text {

  /** The characters `trim` strips: ECMAScript WhiteSpace (TAB, VT, FF, SPACE,
      NO-BREAK SPACE, ZERO WIDTH NO-BREAK SPACE and the Unicode "Zs" space
      separators) and LineTerminator (LF, CR, LINE SEPARATOR, PARAGRAPH SEPARATOR). */
  predicate IsWhitespace(c: char) {
    || c == '\t' || c == '\n' || c == '\U{000B}' || c == '\U{000C}' || c == '\r'
    || c == ' ' || c == '\U{00A0}' || c == '\U{1680}'
    || ('\U{2000}' <= c <= '\U{200A}')
    || c == '\U{2028}' || c == '\U{2029}' || c == '\U{202F}' || c == '\U{205F}'
    || c == '\U{3000}' || c == '\U{FEFF}'
  }

  /** How many whitespace characters open `s`. */
  function LeadingWhitespace(s: string): (n: nat)
    ensures n <= |s|
    ensures forall k :: 0 <= k < n ==> IsWhitespace(s[k])
    ensures n < |s| ==> !IsWhitespace(s[n])
  {
    if s == [] || !IsWhitespace(s[0]) then 0 else 1 + LeadingWhitespace(s[1..])
  }

  /** How many whitespace characters close `s`. */
  function TrailingWhitespace(s: string): (n: nat)
    ensures n <= |s|
    ensures forall k :: |s| - n <= k < |s| ==> IsWhitespace(s[k])
    ensures n < |s| ==> !IsWhitespace(s[|s| - 1 - n])
  {
    if s == [] || !IsWhitespace(s[|s| - 1]) then 0
    else 1 + TrailingWhitespace(s[..|s| - 1])
  }

  /** String.prototype.trim: `s` without its leading and trailing whitespace. */
  function Trim(s: string): (r: string)
    ensures r == [] || (!IsWhitespace(r[0]) && !IsWhitespace(r[|r| - 1]))
    ensures r == [] <==> forall k :: 0 <= k < |s| ==> IsWhitespace(s[k])
    ensures LeadingWhitespace(s) + |r| <= |s|
    ensures r == s[LeadingWhitespace(s)..LeadingWhitespace(s) + |r|]
    ensures forall k :: LeadingWhitespace(s) + |r| <= k < |s| ==> IsWhitespace(s[k])
  {
    var front := LeadingWhitespace(s);
    if front == |s| then []
    else
      var back := TrailingWhitespace(s);
      s[front..|s| - back]
  }

  /** Any slice of `s` that has only whitespace outside it and no whitespace at
      either of its ends (or is empty, when `s` is all whitespace) is Trim(s):
      the contract of Trim pins its result down completely. */
  lemma TrimIsUnique(s: string, i: nat, j: nat)
    requires i <= j <= |s|
    requires forall k :: 0 <= k < i ==> IsWhitespace(s[k])
    requires forall k :: j <= k < |s| ==> IsWhitespace(s[k])
    requires i < j ==> !IsWhitespace(s[i]) && !IsWhitespace(s[j - 1])
    requires i == j ==> forall k :: 0 <= k < |s| ==> IsWhitespace(s[k])
    ensures Trim(s) == s[i..j]
  {
    var r, front := Trim(s), LeadingWhitespace(s);
    if i == j {
      assert r == [];
    } else {
      assert !IsWhitespace(s[i]);
      assert front == i;
      assert r != [] by { assert !IsWhitespace(s[i]); }
      var e := front + |r|;
      assert !IsWhitespace(s[e - 1]) by { assert s[e - 1] == r[|r| - 1]; }
    }
  }

  /** Trimming twice is trimming once. */
  lemma TrimIdempotent(s: string)
    ensures Trim(Trim(s)) == Trim(s)
  {
    var r := Trim(s);
    TrimIsUnique(r, 0, |r|);
  }

  /** Blank input trims to nothing; inner spaces survive, outer ones do not. */
  lemma TrimExamples()
    ensures Trim("") == "" && Trim("   ") == ""
    ensures Trim(" buy milk ") == "buy milk"
  {
    var s := " buy milk ";
    TrimIsUnique(s, 1, 9);
    assert s[1..9] == "buy milk";
  }

  predicate IsDigit(c: char) {
    '0' <= c <= '9'
  }

  predicate AllDigits(s: string) {
    forall k :: 0 <= k < |s| ==> IsDigit(s[k])
  }

  /** The value of a digit character; other characters count as zero. */
  function DigitValue(c: char): nat {
    if IsDigit(c) then c as int - '0' as int else 0
  }

  function DigitChar(d: nat): (c: char)
    requires d < 10
    ensures IsDigit(c) && DigitValue(c) == d
  {
    ('0' as int + d) as char
  }

  /** The number a string of decimal digits denotes (leading zeros allowed). */
  function DecimalValue(s: string): nat {
    if s == [] then 0 else 10 * DecimalValue(s[..|s| - 1]) + DigitValue(s[|s| - 1])
  }

  /** Number.prototype.toString() on a non-negative integer: its decimal
      digits, without leading zeros, which read back as the number. */
  function DecimalString(n: nat): (r: string)
    ensures 1 <= |r| && AllDigits(r)
    ensures r[0] == '0' ==> n == 0
    ensures DecimalValue(r) == n
  {
    if n < 10 then [DigitChar(n)]
    else
      var front := DecimalString(n / 10);
      var r := front + [DigitChar(n % 10)];
      assert r[..|r| - 1] == front;
      r
  }

  /** A digit string that starts with a non-zero digit denotes a positive number. */
  lemma {:induction false} LeadingDigitPositive(s: string)
    requires 1 <= |s| && AllDigits(s) && s[0] != '0'
    ensures DecimalValue(s) >= 1
  {
    if |s| > 1 {
      LeadingDigitPositive(s[..|s| - 1]);
    }
  }

  /** The other direction of the decimal round trip: a digit string without
      superfluous leading zeros is the decimal string of its own value. */
  lemma {:induction false} DecimalStringOfValue(s: string)
    requires 1 <= |s| && AllDigits(s) && (s[0] == '0' ==> |s| == 1)
    ensures DecimalString(DecimalValue(s)) == s
  {
    var last := s[|s| - 1];
    if |s| == 1 {
      assert DigitChar(DigitValue(last)) == last;
      assert s == [last];
    } else {
      var init := s[..|s| - 1];
      LeadingDigitPositive(init);
      DecimalStringOfValue(init);
      var v := DecimalValue(s);
      assert v / 10 == DecimalValue(init) && v % 10 == DigitValue(last);
      assert DigitChar(DigitValue(last)) == last;
      assert s == init + [last];
    }
  }

  /** A number below 100 has at most two digits; from 100 on it has more. */
  lemma DecimalStringLength(n: nat)
    ensures |DecimalString(n)| <= 2 <==> n < 100
  {
    if n >= 10 {
      if n / 10 >= 10 {
        assert |DecimalString(n / 10)| >= 2;
      }
    }
  }

  /** String.prototype.padStart(width, fill) for a one-character fill: fill
      characters are added in front until the length reaches `width`; a
      longer string is returned whole, never truncated. */
  function PadStart(s: string, width: nat, fill: char): (r: string)
    ensures |r| == if |s| < width then width else |s|
    ensures r[|r| - |s|..] == s
    ensures forall k :: 0 <= k < |r| - |s| ==> r[k] == fill
  {
    if |s| < width then seq(width - |s|, _ => fill) + s else s
  }

  /** Leading zeros do not change the value of a digit string. */
  lemma {:induction false} LeadingZerosValue(z: nat, s: string)
    ensures DecimalValue(seq(z, _ => '0') + s) == DecimalValue(s)
  {
    var p := seq(z, _ => '0') + s;
    if s == [] {
      ZerosValue(z);
      assert p == seq(z, _ => '0');
    } else {
      var init := s[..|s| - 1];
      LeadingZerosValue(z, init);
      assert p[..|p| - 1] == seq(z, _ => '0') + init;
      assert p[|p| - 1] == s[|s| - 1];
    }
  }

  lemma {:induction false} ZerosValue(z: nat)
    ensures DecimalValue(seq(z, _ => '0')) == 0
  {
    if z > 0 {
      ZerosValue(z - 1);
      assert seq(z, _ => '0')[..z - 1] == seq(z - 1, _ => '0');
    }
  }

  /** Zero-padding a number's decimal string keeps its value. */
  lemma PaddedDecimalValue(n: nat, width: nat)
    ensures AllDigits(PadStart(DecimalString(n), width, '0'))
    ensures DecimalValue(PadStart(DecimalString(n), width, '0')) == n
  {
    var s := DecimalString(n);
    if |s| < width {
      LeadingZerosValue(width - |s|, s);
    }
  }
}
