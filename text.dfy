/**
 * The two string operations the editing model relies on: `String.prototype.trim`
 * (the forms treat a field as missing when its trimmed value is empty) and
 * `Number.prototype.toString` on array indices (saved rules get their position
 * as id).
 */
module Text {

  /**
   * The ECMAScript WhiteSpace and LineTerminator code points, which `trim`
   * removes: TAB, LF, VT, FF, CR, SPACE, NBSP, the other Unicode "Zs" spaces,
   * LINE SEPARATOR, PARAGRAPH SEPARATOR and the byte order mark.
   */
  predicate IsWhitespace(c: char) {
    || c == '\t' || c == '\n' || c == '\U{B}' || c == '\U{C}' || c == '\r'
    || c == ' ' || c == '\U{A0}' || c == '\U{1680}'
    || ('\U{2000}' <= c <= '\U{200A}')
    || c == '\U{2028}' || c == '\U{2029}' || c == '\U{202F}' || c == '\U{205F}'
    || c == '\U{3000}' || c == '\U{FEFF}'
  }

  /** Every character of `s` is whitespace (true of the empty string). */
  predicate AllWhitespace(s: string) {
    forall i :: 0 <= i < |s| ==> IsWhitespace(s[i])
  }

  /** `s` with its leading whitespace removed. */
  function TrimStart(s: string): string {
    if s != [] && IsWhitespace(s[0]) then TrimStart(s[1..]) else s
  }

  /** `s` with its trailing whitespace removed. */
  function TrimEnd(s: string): string {
    if s != [] && IsWhitespace(s[|s| - 1]) then TrimEnd(s[..|s| - 1]) else s
  }

  /** `s.trim()`. */
  function Trim(s: string): string {
    TrimEnd(TrimStart(s))
  }

  /** `!s.trim()`: the trimmed string is empty, hence falsy. */
  predicate IsBlank(s: string) {
    Trim(s) == []
  }

  /**
   * Trimming the start drops a run of whitespace and keeps the rest: the
   * result is a suffix of `s` that does not start with whitespace.
   */
  lemma {:induction false} TrimStartDropsWhitespace(s: string)
    ensures var r := TrimStart(s);
      && |r| <= |s|
      && (forall i :: 0 <= i < |r| ==> r[i] == s[|s| - |r| + i])
      && (forall i :: 0 <= i < |s| - |r| ==> IsWhitespace(s[i]))
      && (r != [] ==> !IsWhitespace(r[0]))
  {
    if s != [] && IsWhitespace(s[0]) {
      var t := s[1..];
      var r := TrimStart(t);
      TrimStartDropsWhitespace(t);
      assert TrimStart(s) == r;
      forall i | 0 <= i < |r| ensures r[i] == s[|s| - |r| + i] {
        assert r[i] == t[|t| - |r| + i];
      }
      forall i | 0 <= i < |s| - |r| ensures IsWhitespace(s[i]) {
        if i > 0 {
          assert s[i] == t[i - 1];
        }
      }
    }
  }

  /**
   * Trimming the end drops a run of whitespace and keeps the rest: the result
   * is a prefix of `s` that does not end with whitespace.
   */
  lemma {:induction false} TrimEndDropsWhitespace(s: string)
    ensures var r := TrimEnd(s);
      && |r| <= |s|
      && r == s[..|r|]
      && (forall i :: |r| <= i < |s| ==> IsWhitespace(s[i]))
      && (r != [] ==> !IsWhitespace(r[|r| - 1]))
  {
    if s != [] && IsWhitespace(s[|s| - 1]) {
      TrimEndDropsWhitespace(s[..|s| - 1]);
    }
  }

  /** Trimming yields a contiguous part of `s` that neither starts nor ends with whitespace. */
  lemma TrimShape(s: string)
    ensures exists i, j :: 0 <= i <= j <= |s| && Trim(s) == s[i..j]
    ensures Trim(s) != [] ==> !IsWhitespace(Trim(s)[0]) && !IsWhitespace(Trim(s)[|Trim(s)| - 1])
  {
    var t := TrimStart(s);
    TrimStartDropsWhitespace(s);
    TrimEndDropsWhitespace(t);
    var k := |s| - |t|;
    assert t == s[k..];
    assert Trim(s) == s[k..k + |TrimEnd(t)|];
    if Trim(s) != [] {
      assert Trim(s)[0] == t[0];
    }
  }

  /** A field is blank exactly when all of its characters are whitespace. */
  lemma BlankIffAllWhitespace(s: string)
    ensures IsBlank(s) <==> AllWhitespace(s)
  {
    var t := TrimStart(s);
    TrimStartDropsWhitespace(s);
    TrimEndDropsWhitespace(t);
    if IsBlank(s) {
      assert TrimEnd(t) == [];
      assert t == [];
    } else {
      var r := Trim(s);
      assert r != [] && !IsWhitespace(r[0]);
      assert r[0] == t[0] == s[|s| - |t|];
    }
  }

  /** The character for a decimal digit. */
  function DigitChar(d: nat): (c: char)
    requires d < 10
    ensures '0' <= c <= '9'
  {
    ('0' as int + d) as char
  }

  /** Every character of `s` is a decimal digit. */
  predicate AllDigits(s: string) {
    forall i :: 0 <= i < |s| ==> '0' <= s[i] <= '9'
  }

  /**
   * `n.toString()` for an array index: its decimal digits, without leading
   * zeros. JavaScript writes exponent notation from 10^21 on, which no array
   * index reaches; this function writes plain digits for every `n`.
   */
  function NatToString(n: nat): (s: string)
    ensures |s| >= 1 && AllDigits(s)
    ensures |s| > 1 ==> s[0] != '0'
  {
    if n < 10 then [DigitChar(n)] else NatToString(n / 10) + [DigitChar(n % 10)]
  }

  /** The value of a string of decimal digits. */
  function DigitsValue(s: string): nat
    requires AllDigits(s)
  {
    if s == [] then 0 else DigitsValue(s[..|s| - 1]) * 10 + (s[|s| - 1] as int - '0' as int)
  }

  /** Reading back the digits of `n` gives `n`. */
  lemma {:induction false} DigitsValueNatToString(n: nat)
    ensures DigitsValue(NatToString(n)) == n
  {
    var s := NatToString(n);
    if n >= 10 {
      DigitsValueNatToString(n / 10);
      assert s[..|s| - 1] == NatToString(n / 10);
    }
  }

  /** Distinct numbers have distinct decimal strings. */
  lemma NatToStringInjective(m: nat, n: nat)
    ensures NatToString(m) == NatToString(n) ==> m == n
  {
    DigitsValueNatToString(m);
    DigitsValueNatToString(n);
  }
}
