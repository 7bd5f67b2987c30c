/** The string built-ins the server relies on: `String.prototype.trim`,
    `String.prototype.split(' ')` and the decimal `toString` of the
    eight-digit public user code. */
module Text {

  /** The characters `trim` removes: ECMAScript WhiteSpace and LineTerminator. */
  predicate IsJsWhitespace(c: char) {
    || c == '\t' || c == '\n' || c == '\U{B}' || c == '\U{C}' || c == '\r'
    || c == ' ' || c == '\U{A0}' || c == '\U{1680}'
    || ('\U{2000}' <= c <= '\U{200A}')
    || c == '\U{2028}' || c == '\U{2029}' || c == '\U{202F}' || c == '\U{205F}'
    || c == '\U{3000}' || c == '\U{FEFF}'
  }

  /** Drops leading whitespace. */
  function TrimStart(s: string): (r: string)
    ensures |r| <= |s|
  {
    if s != [] && IsJsWhitespace(s[0]) then TrimStart(s[1..]) else s
  }

  /** Drops trailing whitespace. */
  function TrimEnd(s: string): (r: string)
    ensures |r| <= |s|
  {
    if s != [] && IsJsWhitespace(s[|s| - 1]) then TrimEnd(s[..|s| - 1]) else s
  }

  /** `r` is a suffix of `s` that does not start with whitespace, and only
      whitespace comes before it. */
  ghost predicate LeadingWhitespaceDropped(s: string, r: string) {
    && |r| <= |s| && r == s[|s| - |r|..]
    && (r != [] ==> !IsJsWhitespace(r[0]))
    && forall i :: 0 <= i < |s| - |r| ==> IsJsWhitespace(s[i])
  }

  /** `r` is a prefix of `s` that does not end with whitespace, and only
      whitespace comes after it. */
  ghost predicate TrailingWhitespaceDropped(s: string, r: string) {
    && |r| <= |s| && r == s[..|r|]
    && (r != [] ==> !IsJsWhitespace(r[|r| - 1]))
    && forall i :: |r| <= i < |s| ==> IsJsWhitespace(s[i])
  }

  /** `TrimStart` removes exactly the leading whitespace. */
  lemma {:induction false} TrimStartDropsLeading(s: string)
    ensures LeadingWhitespaceDropped(s, TrimStart(s))
  {
    if s != [] && IsJsWhitespace(s[0]) {
      var t := s[1..];
      var r := TrimStart(t);
      TrimStartDropsLeading(t);
      assert r == s[|s| - |r|..] by {
        assert t[|t| - |r|..] == s[|s| - |r|..];
      }
      forall i | 0 <= i < |s| - |r| ensures IsJsWhitespace(s[i]) {
        if i > 0 {
          assert s[i] == t[i - 1];
        }
      }
    }
  }

  /** `TrimEnd` removes exactly the trailing whitespace. */
  lemma {:induction false} TrimEndDropsTrailing(s: string)
    ensures TrailingWhitespaceDropped(s, TrimEnd(s))
  {
    if s != [] && IsJsWhitespace(s[|s| - 1]) {
      var t := s[..|s| - 1];
      var r := TrimEnd(t);
      TrimEndDropsTrailing(t);
      assert r == s[..|r|] by {
        assert t[..|r|] == s[..|r|];
      }
      forall i | |r| <= i < |s| ensures IsJsWhitespace(s[i]) {
        if i < |s| - 1 {
          assert s[i] == t[i];
        }
      }
    }
  }

  /** `s.trim()`: the infix of `s` left after removing whitespace at both ends. */
  function Trim(s: string): (r: string)
    ensures |r| <= |s|
    ensures r != [] ==> !IsJsWhitespace(r[0]) && !IsJsWhitespace(r[|r| - 1])
  {
    TrimStartDropsLeading(s);
    TrimEndDropsTrailing(TrimStart(s));
    TrimEnd(TrimStart(s))
  }

  /** `r` is the infix of `s` starting at `a`, and every character of `s`
      outside it is whitespace. */
  ghost predicate WhitespaceAround(r: string, s: string, a: nat) {
    && a + |r| <= |s| && r == s[a..a + |r|]
    && forall i :: 0 <= i < |s| && (i < a || a + |r| <= i) ==> IsJsWhitespace(s[i])
  }

  /** Dropping a whitespace prefix and then a whitespace suffix leaves an
      infix with whitespace around it. */
  lemma WhitespaceAroundOfParts(s: string, t: string, r: string)
    requires |t| <= |s| && t == s[|s| - |t|..]
    requires forall i :: 0 <= i < |s| - |t| ==> IsJsWhitespace(s[i])
    requires |r| <= |t| && r == t[..|r|]
    requires forall i :: |r| <= i < |t| ==> IsJsWhitespace(t[i])
    ensures WhitespaceAround(r, s, |s| - |t|)
  {
    var a := |s| - |t|;
    assert r == s[a..a + |r|];
    forall i | a + |r| <= i < |s| ensures IsJsWhitespace(s[i]) {
      assert s[i] == t[i - a];
    }
  }

  /** What `Trim` keeps is the infix of `s` that starts where the leading
      whitespace ends, and every character of `s` outside it is whitespace. */
  lemma TrimKeepsInfix(s: string)
    ensures WhitespaceAround(Trim(s), s, |s| - |TrimStart(s)|)
  {
    TrimStartDropsLeading(s);
    TrimEndDropsTrailing(TrimStart(s));
    WhitespaceAroundOfParts(s, TrimStart(s), TrimEnd(TrimStart(s)));
  }

  /** Trimming yields the empty string exactly when every character is whitespace. */
  lemma TrimEmptyIffBlank(s: string)
    ensures Trim(s) == [] <==> forall i :: 0 <= i < |s| ==> IsJsWhitespace(s[i])
  {
    var t := TrimStart(s);
    TrimStartDropsLeading(s);
    TrimEndDropsTrailing(t);
    assert t != [] ==> TrimEnd(t) != [];
    assert t != [] ==> t[0] == s[|s| - |t|];
  }

  /** Trimming twice is trimming once. */
  lemma TrimIdempotent(s: string)
    ensures Trim(Trim(s)) == Trim(s)
  {
    var r := Trim(s);
    if r != [] {
      assert TrimStart(r) == r;
      assert TrimEnd(r) == r;
    }
  }

  /** `s.split(sep)`: the maximal separator-free fields, in order; never empty. */
  function Split(s: string, sep: char): (parts: seq<string>)
    ensures |parts| >= 1
    ensures forall k :: 0 <= k < |parts| ==> sep !in parts[k]
  {
    if s == [] then [[]]
    else if s[0] == sep then [[]] + Split(s[1..], sep)
    else
      var rest := Split(s[1..], sep);
      [[s[0]] + rest[0]] + rest[1..]
  }

  /** The inverse of `Split`: the fields joined with the separator. */
  function Join(parts: seq<string>, sep: char): string
    requires |parts| >= 1
  {
    if |parts| == 1 then parts[0] else parts[0] + [sep] + Join(parts[1..], sep)
  }

  /** Joining the fields of a split gives back the original string. */
  lemma {:induction false} JoinSplit(s: string, sep: char)
    ensures Join(Split(s, sep), sep) == s
  {
    if s == [] {
    } else if s[0] == sep {
      JoinSplit(s[1..], sep);
      assert Split(s, sep) == [[]] + Split(s[1..], sep);
      assert Split(s, sep)[1..] == Split(s[1..], sep);
    } else {
      var rest := Split(s[1..], sep);
      JoinSplit(s[1..], sep);
      if |rest| == 1 {
        assert Split(s, sep) == [[s[0]] + rest[0]];
      } else {
        assert Split(s, sep)[1..] == rest[1..];
        assert Join(rest, sep) == rest[0] + [sep] + Join(rest[1..], sep);
      }
    }
  }

  /** Splitting separator-free fields joined by the separator gives the fields back. */
  lemma {:induction false} SplitJoin(parts: seq<string>, sep: char)
    requires |parts| >= 1
    requires forall k :: 0 <= k < |parts| ==> sep !in parts[k]
    ensures Split(Join(parts, sep), sep) == parts
  {
    if |parts| == 1 {
      SplitField(parts[0], [], sep);
      assert parts[0] + [] == parts[0];
    } else {
      SplitJoin(parts[1..], sep);
      var tail := Join(parts[1..], sep);
      SplitField(parts[0], [sep] + tail, sep);
      assert parts[0] + [sep] + tail == parts[0] + ([sep] + tail);
      assert ([sep] + tail)[1..] == tail;
      assert parts == [parts[0]] + parts[1..];
    }
  }

  /** Splitting a separator-free field followed by text `t` that is empty or
      starts with the separator: the field becomes the first part. */
  lemma {:induction false} SplitField(field: string, t: string, sep: char)
    requires sep !in field
    requires t == [] || t[0] == sep
    ensures Split(field + t, sep) ==
            if t == [] then [field] else [field] + Split(t[1..], sep)
  {
    if field == [] {
      assert field + t == t;
    } else {
      SplitField(field[1..], t, sep);
      assert (field + t)[1..] == field[1..] + t;
      assert [field[0]] + field[1..] == field;
    }
  }

  /** The character of a decimal digit. */
  function DigitChar(d: nat): (c: char)
    requires d < 10
    ensures '0' <= c <= '9'
  {
    (48 + d) as char
  }

  /** The value of a decimal digit character. */
  function DigitValue(c: char): (d: nat)
    requires '0' <= c <= '9'
    ensures d < 10
  {
    c as int - 48
  }

  predicate AllDigits(s: string) {
    forall i :: 0 <= i < |s| ==> '0' <= s[i] <= '9'
  }

  /** `n.toString()` for a non-negative integer: the shortest decimal numeral. */
  function DecimalString(n: nat): (r: string)
    ensures |r| >= 1 && AllDigits(r)
    ensures |r| == 1 || r[0] != '0'
    decreases n
  {
    if n < 10 then [DigitChar(n)] else DecimalString(n / 10) + [DigitChar(n % 10)]
  }

  /** The value of a decimal numeral. */
  function ParseDecimal(s: string): nat
    requires AllDigits(s)
  {
    if s == [] then 0 else ParseDecimal(s[..|s| - 1]) * 10 + DigitValue(s[|s| - 1])
  }

  /** Parsing the numeral of `n` gives `n` back. */
  lemma {:induction false} DecimalRoundTrip(n: nat)
    ensures ParseDecimal(DecimalString(n)) == n
    decreases n
  {
    var r := DecimalString(n);
    if n >= 10 {
      DecimalRoundTrip(n / 10);
      assert r[..|r| - 1] == DecimalString(n / 10);
    }
  }

  function Pow10(k: nat): (p: nat)
    ensures p >= 1
  {
    if k == 0 then 1 else 10 * Pow10(k - 1)
  }

  /** A number with exactly `k` decimal digits has a numeral of length `k`. */
  lemma {:induction false} DecimalLength(n: nat, k: nat)
    requires 1 <= k && n < Pow10(k)
    requires k == 1 || Pow10(k - 1) <= n
    ensures |DecimalString(n)| == k
    decreases k
  {
    if k > 1 {
      assert Pow10(k) == 10 * Pow10(k - 1);
      if k > 2 {
        assert Pow10(k - 1) == 10 * Pow10(k - 2);
      }
      DecimalLength(n / 10, k - 1);
    }
  }

  /** The smallest eight-digit public user code, and how many there are. */
  const MinUserCode: nat := 10000000
  const UserCodeRange: nat := 90000000

  /** `generateUserID` (server.js:83-85) given the integer part `draw` of
      `Math.random() * 90000000`: an eight-digit numeral with no leading zero
      whose value is `10000000 + draw`. */
  function GenerateUserCode(draw: nat): (code: string)
    requires draw < UserCodeRange
    ensures |code| == 8 && AllDigits(code) && code[0] != '0'
    ensures ParseDecimal(code) == MinUserCode + draw
  {
    DecimalLength(MinUserCode + draw, 8);
    DecimalRoundTrip(MinUserCode + draw);
    DecimalString(MinUserCode + draw)
  }
}
