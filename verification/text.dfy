/**
 * String primitives shared by the formatters and the forms: the regular
 * expression classes they use (`\d`, `\s`), `String.prototype.trim`,
 * `split(" ")`, `slice(0, n)`, the e-mail pattern
 * `^[^\s@]+@[^\s@]+\.[^\s@]+$`, record lookups with a `||` fallback and the
 * decimal rendering of a number inside a template string.
 */
module Text {

  // ---------------------------------------------------------------------------
  // Digits: the class `\d` and `s.replace(/\D/g, "")`
  // ---------------------------------------------------------------------------

  /** The class `\d` of a JavaScript regular expression: ASCII digits only. */
  predicate IsDigit(c: char) {
    '0' <= c <= '9'
  }

  predicate AllDigits(s: string) {
    forall i :: 0 <= i < |s| ==> IsDigit(s[i])
  }

  predicate NoDigits(s: string) {
    forall i :: 0 <= i < |s| ==> !IsDigit(s[i])
  }

  /** `s.replace(/\D/g, "")`: the digits of `s`, in their order. */
  function Digits(s: string): (d: string)
    ensures AllDigits(d)
    ensures |d| <= |s|
    ensures AllDigits(s) ==> d == s
    ensures NoDigits(s) ==> d == []
  {
    if s == [] then []
    else (if IsDigit(s[0]) then [s[0]] else []) + Digits(s[1..])
  }

  /** Stripping non-digits distributes over concatenation. */
  lemma {:induction false} DigitsAppend(a: string, b: string)
    ensures Digits(a + b) == Digits(a) + Digits(b)
  {
    if a == [] {
      assert a + b == b;
    } else {
      var head: string := if IsDigit(a[0]) then [a[0]] else [];
      assert (a + b)[0] == a[0];
      assert (a + b)[1..] == a[1..] + b;
      assert Digits(a + b) == head + Digits(a[1..] + b);
      DigitsAppend(a[1..], b);
      assert Digits(a) == head + Digits(a[1..]);
    }
  }

  lemma DigitsAppend3(a: string, b: string, c: string)
    ensures Digits(a + b + c) == Digits(a) + Digits(b) + Digits(c)
  {
    DigitsAppend(a + b, c);
    DigitsAppend(a, b);
  }

  /** A character that is not a digit vanishes between its neighbours. */
  lemma DigitsSkip(x: string, c: char, y: string)
    requires !IsDigit(c)
    ensures Digits(x + [c] + y) == Digits(x) + Digits(y)
  {
    DigitsAppend3(x, [c], y);
  }

  /** The digits of a prefix are a prefix of the digits. */
  lemma DigitsOfPrefix(s: string, n: nat)
    requires n <= |s|
    ensures Digits(s[..n]) <= Digits(s)
  {
    assert s == s[..n] + s[n..];
    DigitsAppend(s[..n], s[n..]);
  }

  /** `s.slice(0, end)` for an integer `end` (a negative `end` counts from the back). */
  function SliceTo(s: string, end: int): (r: string)
    ensures r <= s
    ensures end >= |s| ==> r == s
    ensures 0 <= end <= |s| ==> |r| == end
    ensures end < 0 ==> |r| == if |s| + end > 0 then |s| + end else 0
  {
    if end >= |s| then s
    else if end >= 0 then s[..end]
    else if |s| + end > 0 then s[..|s| + end]
    else []
  }

  // ---------------------------------------------------------------------------
  // Whitespace: the class `\s` and `String.prototype.trim`
  // ---------------------------------------------------------------------------

  /**
   * The class `\s` of a JavaScript regular expression, which is also the set
   * `trim` removes: the WhiteSpace code points (tab, vertical tab, form feed,
   * the byte-order mark and the space separators) and the LineTerminator code
   * points (line feed, carriage return, line and paragraph separators).
   */
  predicate IsJsWhitespace(c: char) {
    c == '\t' || c == '\n' || c == '\U{000B}' || c == '\U{000C}' || c == '\r' || c == ' '
    || c == '\U{00A0}' || c == '\U{1680}' || ('\U{2000}' <= c <= '\U{200A}')
    || c == '\U{2028}' || c == '\U{2029}' || c == '\U{202F}' || c == '\U{205F}'
    || c == '\U{3000}' || c == '\U{FEFF}'
  }

  /** A LineTerminator: the characters the regular-expression `.` does not match. */
  predicate IsLineTerminator(c: char) {
    c == '\n' || c == '\r' || c == '\U{2028}' || c == '\U{2029}'
  }

  predicate AllWhitespace(s: string) {
    forall i :: 0 <= i < |s| ==> IsJsWhitespace(s[i])
  }

  /** `s` without its leading whitespace. */
  function TrimStart(s: string): string
  {
    if s != [] && IsJsWhitespace(s[0]) then TrimStart(s[1..]) else s
  }

  /** `s` without its trailing whitespace. */
  function TrimEnd(s: string): string
  {
    if s != [] && IsJsWhitespace(s[|s| - 1]) then TrimEnd(s[..|s| - 1]) else s
  }

  /** `s.trim()`. */
  function Trim(s: string): string
  {
    TrimEnd(TrimStart(s))
  }

  /** What TrimStart keeps is the suffix of `s` after a whitespace run, and it starts with no whitespace. */
  lemma {:induction false} TrimStartSpec(s: string)
    ensures |TrimStart(s)| <= |s| && TrimStart(s) == s[|s| - |TrimStart(s)|..]
    ensures AllWhitespace(s[..|s| - |TrimStart(s)|])
    ensures TrimStart(s) == [] || !IsJsWhitespace(TrimStart(s)[0])
  {
    if s != [] && IsJsWhitespace(s[0]) {
      TrimStartSpec(s[1..]);
      var r := TrimStart(s);
      var k := |s| - |r|;
      assert s[1..][|s| - 1 - |r|..] == s[k..];
      forall j | 0 <= j < k ensures IsJsWhitespace(s[..k][j]) {
        if j > 0 {
          assert s[..k][j] == s[1..][..k - 1][j - 1];
        }
      }
    }
  }

  /** What TrimEnd keeps is the prefix of `s` before a whitespace run, and it ends with no whitespace. */
  lemma {:induction false} TrimEndSpec(s: string)
    ensures |TrimEnd(s)| <= |s| && TrimEnd(s) == s[..|TrimEnd(s)|]
    ensures AllWhitespace(s[|TrimEnd(s)|..])
    ensures TrimEnd(s) == [] || !IsJsWhitespace(TrimEnd(s)[|TrimEnd(s)| - 1])
  {
    if s != [] && IsJsWhitespace(s[|s| - 1]) {
      var init := s[..|s| - 1];
      TrimEndSpec(init);
      var r := TrimEnd(s);
      assert init[..|r|] == s[..|r|];
      forall j | |r| <= j < |s| ensures IsJsWhitespace(s[j]) {
        if j < |s| - 1 {
          assert s[j] == init[|r|..][j - |r|];
        }
      }
      assert forall j :: 0 <= j < |s[|r|..]| ==> s[|r|..][j] == s[|r| + j];
    }
  }

  /**
   * `trim` keeps a contiguous middle part, starting at the returned index, and
   * removes only whitespace around it; neither end of what it keeps is whitespace.
   */
  lemma TrimSlice(s: string) returns (i: nat)
    ensures i + |Trim(s)| <= |s| && Trim(s) == s[i..i + |Trim(s)|]
    ensures AllWhitespace(s[..i]) && AllWhitespace(s[i + |Trim(s)|..])
    ensures Trim(s) == [] || (!IsJsWhitespace(Trim(s)[0]) && !IsJsWhitespace(Trim(s)[|Trim(s)| - 1]))
  {
    var t := TrimStart(s);
    TrimStartSpec(s);
    i := |s| - |t|;
    var r := TrimEnd(t);
    TrimEndSpec(t);
    assert t == s[i..];
    assert r == s[i..i + |r|];
    assert s[i + |r|..] == t[|r|..];
    if r != [] {
      assert r[0] == t[0];
    }
  }

  /** A string trims to "" exactly when it is all whitespace (the `!s.trim()` test). */
  lemma TrimEmptyIff(s: string)
    ensures Trim(s) == [] <==> AllWhitespace(s)
  {
    if AllWhitespace(s) {
      TrimStartAllWhitespace(s);
    }
    if Trim(s) == [] {
      var i := TrimSlice(s);
      forall j | 0 <= j < |s| ensures IsJsWhitespace(s[j]) {
        if j < i {
          assert s[j] == s[..i][j];
        } else {
          assert s[j] == s[i..][j - i];
        }
      }
    }
  }

  lemma {:induction false} TrimStartAllWhitespace(s: string)
    requires AllWhitespace(s)
    ensures TrimStart(s) == []
  {
    if s != [] {
      TrimStartAllWhitespace(s[1..]);
    }
  }

  /** Trimming twice removes nothing more. */
  lemma TrimIdempotent(s: string)
    ensures Trim(Trim(s)) == Trim(s)
  {
    var t := Trim(s);
    var _ := TrimSlice(s);
    if t != [] {
      assert TrimStart(t) == t;
      assert TrimEnd(t) == t;
    }
  }

  /** A string with no whitespace at all is its own trim. */
  lemma TrimNoWhitespace(s: string)
    requires forall i :: 0 <= i < |s| ==> !IsJsWhitespace(s[i])
    ensures Trim(s) == s
  {
  }

  // ---------------------------------------------------------------------------
  // `s.split(c)` for a one-character separator
  // ---------------------------------------------------------------------------

  /** Occurrences of `c` in `s`. */
  function Count(c: char, s: string): nat
  {
    if s == [] then 0 else (if s[0] == c then 1 else 0) + Count(c, s[1..])
  }

  lemma CountPositive(c: char, s: string)
    ensures Count(c, s) > 0 <==> c in s
  {
    if s != [] {
      CountPositive(c, s[1..]);
      assert c in s <==> s[0] == c || c in s[1..];
    }
  }

  /** `s.split(c)`: the pieces between occurrences of `c` (an empty `s` gives [""]). */
  function Split(s: string, c: char): (parts: seq<string>)
    ensures |parts| == Count(c, s) + 1
    ensures forall k :: 0 <= k < |parts| ==> c !in parts[k]
  {
    if s == [] then [[]]
    else
      var rest := Split(s[1..], c);
      if s[0] == c then [[]] + rest
      else [[s[0]] + rest[0]] + rest[1..]
  }

  /** `parts.join(c)`. */
  function Join(parts: seq<string>, c: char): string
  {
    if parts == [] then []
    else if |parts| == 1 then parts[0]
    else parts[0] + [c] + Join(parts[1..], c)
  }

  /** Splitting loses nothing: joining the pieces with the separator gives `s` back. */
  lemma {:induction false} SplitJoin(s: string, c: char)
    ensures Join(Split(s, c), c) == s
  {
    if s != [] {
      var rest := Split(s[1..], c);
      SplitJoin(s[1..], c);
      if s[0] == c {
        assert Split(s, c) == [[]] + rest;
        assert (([[]] + rest)[1..]) == rest;
        assert s == [] + [c] + s[1..];
      } else {
        var parts := [[s[0]] + rest[0]] + rest[1..];
        assert Split(s, c) == parts;
        if |rest| == 1 {
          assert Join(rest, c) == rest[0];
        } else {
          assert parts[1..] == rest[1..];
          assert Join(rest, c) == rest[0] + [c] + Join(rest[1..], c);
        }
      }
    }
  }

  // ---------------------------------------------------------------------------
  // The e-mail pattern ^[^\s@]+@[^\s@]+\.[^\s@]+$
  // ---------------------------------------------------------------------------

  /** Every character matches `[^\s@]`. */
  predicate EmailPart(s: string) {
    forall i :: 0 <= i < |s| ==> s[i] != '@' && !IsJsWhitespace(s[i])
  }

  /**
   * `/^[^\s@]+@[^\s@]+\.[^\s@]+$/.test(s)`: a non-empty local part without
   * whitespace or '@', then '@', then a domain without whitespace or '@' that
   * has a '.' with non-empty text on both sides of it.
   */
  predicate ValidEmail(s: string) {
    exists at, dot | 0 < at && at + 1 < dot && dot + 1 < |s| ::
      s[at] == '@' && s[dot] == '.'
      && EmailPart(s[..at]) && EmailPart(s[at + 1..dot]) && EmailPart(s[dot + 1..])
  }

  /** An accepted address has exactly one '@', no whitespace, and so is its own trim. */
  lemma ValidEmailShape(s: string)
    requires ValidEmail(s)
    ensures s != [] && Count('@', s) == 1
    ensures forall i :: 0 <= i < |s| ==> !IsJsWhitespace(s[i])
    ensures Trim(s) == s
  {
    var at, dot :| 0 < at && at + 1 < dot && dot + 1 < |s|
      && s[at] == '@' && s[dot] == '.'
      && EmailPart(s[..at]) && EmailPart(s[at + 1..dot]) && EmailPart(s[dot + 1..]);
    EmailPartsJoin(s, at, dot);
    SingleAt(s, at);
    TrimNoWhitespace(s);
  }

  lemma SingleAt(s: string, at: nat)
    requires at < |s| && s[at] == '@'
    requires forall i :: 0 <= i < |s| && i != at ==> s[i] != '@'
    ensures Count('@', s) == 1
  {
    var pre, post := s[..at], s[at + 1..];
    assert s == pre + ([s[at]] + post);
    CountAppend('@', pre, [s[at]] + post);
    CountAppend('@', [s[at]], post);
    forall i | 0 <= i < |pre| ensures pre[i] != '@' {
      assert pre[i] == s[i];
    }
    forall i | 0 <= i < |post| ensures post[i] != '@' {
      assert post[i] == s[at + 1 + i];
    }
    CountAbsent('@', pre);
    CountAbsent('@', post);
  }

  /** Around the '@', the three parts of an accepted address hold no whitespace and no other '@'. */
  lemma EmailPartsJoin(s: string, at: nat, dot: nat)
    requires at < dot < |s|
    requires s[dot] == '.'
    requires EmailPart(s[..at]) && EmailPart(s[at + 1..dot]) && EmailPart(s[dot + 1..])
    ensures forall i :: 0 <= i < |s| && i != at ==> s[i] != '@' && !IsJsWhitespace(s[i])
    ensures at < |s| && s[at] == '@' ==> forall i :: 0 <= i < |s| ==> !IsJsWhitespace(s[i])
    ensures forall i :: at < i < |s| ==> s[i] != '@'
  {
    forall i | 0 <= i < |s| && i != at ensures s[i] != '@' && !IsJsWhitespace(s[i]) {
      if i < at {
        assert s[i] == s[..at][i];
      } else if i < dot {
        assert s[i] == s[at + 1..dot][i - at - 1];
      } else if dot < i {
        assert s[i] == s[dot + 1..][i - dot - 1];
      }
    }
  }

  lemma {:induction false} CountAppend(c: char, a: string, b: string)
    ensures Count(c, a + b) == Count(c, a) + Count(c, b)
  {
    if a == [] {
      assert a + b == b;
    } else {
      assert (a + b)[0] == a[0];
      assert (a + b)[1..] == a[1..] + b;
      CountAppend(c, a[1..], b);
    }
  }

  lemma CountAbsent(c: char, s: string)
    requires forall i :: 0 <= i < |s| ==> s[i] != c
    ensures Count(c, s) == 0
  {
    CountPositive(c, s);
  }

  // ---------------------------------------------------------------------------
  // Record lookups, lower-casing and decimal rendering
  // ---------------------------------------------------------------------------

  /** `table[key] || key` for a `Record<string, string>`: an empty label also falls back. */
  function LabelOr(table: map<string, string>, key: string): string
  {
    if key in table && table[key] != "" then table[key] else key
  }

  /**
   * `toLowerCase` on one character, for the ASCII and Latin-1 upper-case
   * letters (U+00C0..U+00DE except the multiplication sign U+00D7).
   */
  function LowerChar(c: char): char
  {
    if 'A' <= c <= 'Z' || ('\U{00C0}' <= c <= '\U{00DE}' && c != '\U{00D7}')
    then (c as int + 32) as char
    else c
  }

  function ToLower(s: string): (r: string)
    ensures |r| == |s|
    ensures forall i :: 0 <= i < |s| ==> r[i] == LowerChar(s[i])
  {
    if s == [] then [] else [LowerChar(s[0])] + ToLower(s[1..])
  }

  /** Lower-casing twice changes nothing more. */
  lemma ToLowerIdempotent(s: string)
    ensures ToLower(ToLower(s)) == ToLower(s)
  {
    assert forall i :: 0 <= i < |s| ==> LowerChar(LowerChar(s[i])) == LowerChar(s[i]);
  }

  function DigitChar(d: nat): char
    requires d < 10
  {
    ('0' as int + d) as char
  }

  /** `${n}` for a non-negative integer: its decimal digits, no leading zeros. */
  function DecimalString(n: nat): (s: string)
    ensures s != [] && AllDigits(s)
    ensures |s| > 1 ==> s[0] != '0'
    decreases n
  {
    if n < 10 then [DigitChar(n)] else DecimalString(n / 10) + [DigitChar(n % 10)]
  }

  /** The value of a string of decimal digits. */
  function DecimalValue(s: string): nat
    requires AllDigits(s)
  {
    if s == [] then 0 else DecimalValue(s[..|s| - 1]) * 10 + (s[|s| - 1] as int - '0' as int)
  }

  /** Reading the rendered digits back gives the number. */
  lemma {:induction false} DecimalRoundTrip(n: nat)
    ensures DecimalValue(DecimalString(n)) == n
    decreases n
  {
    if n >= 10 {
      var s := DecimalString(n);
      assert s[..|s| - 1] == DecimalString(n / 10);
      DecimalRoundTrip(n / 10);
    }
  }
}
