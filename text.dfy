/** The string operations the handlers and the client hook rely on:
    Python's `str.split(" ")`, `str.strip()` and `str.lower()`, JavaScript's
    `String.prototype.trim()` (only whether its result is empty), and the
    decimal rendering of integers (`str(n)` in Python, `String(n)` in
    JavaScript). */
module Text {

  // ---------------------------------------------------------------------
  // str.split(sep) with an explicit one-character separator
  // ---------------------------------------------------------------------

  /** `s.split(sep)`: consecutive separators yield empty fields, and the
      result always has at least one field. */
  function Split(s: string, sep: char): (parts: seq<string>)
    ensures |parts| >= 1
    decreases |s|
  {
    if s == [] then [""]
    else
      var rest := Split(s[1..], sep);
      if s[0] == sep then [""] + rest else [[s[0]] + rest[0]] + rest[1..]
  }

  /** `sep.join(parts)`, the inverse of `Split`. */
  function Join(parts: seq<string>, sep: char): string
    requires |parts| >= 1
    decreases |parts|
  {
    if |parts| == 1 then parts[0] else parts[0] + [sep] + Join(parts[1..], sep)
  }

  /** The text of `s` up to (not including) the first `sep`, or all of `s`. */
  function TakeUntil(s: string, sep: char): string
    decreases |s|
  {
    if s == [] || s[0] == sep then "" else [s[0]] + TakeUntil(s[1..], sep)
  }

  /** Text without the separator is taken whole. */
  lemma {:induction false} TakeUntilWhole(s: string, sep: char)
    requires sep !in s
    ensures TakeUntil(s, sep) == s
    decreases |s|
  {
    if s != [] {
      assert sep !in s[1..];
      TakeUntilWhole(s[1..], sep);
      assert [s[0]] + s[1..] == s;
    }
  }

  /** Splitting loses nothing: no field holds the separator, and joining the
      fields with it gives back the original text. */
  lemma {:induction false} SplitJoin(s: string, sep: char)
    ensures forall k :: 0 <= k < |Split(s, sep)| ==> sep !in Split(s, sep)[k]
    ensures Join(Split(s, sep), sep) == s
    decreases |s|
  {
    if s != [] {
      SplitJoin(s[1..], sep);
      var rest := Split(s[1..], sep);
      if s[0] == sep {
        assert Split(s, sep) == [""] + rest;
        assert Split(s, sep)[1..] == rest;
      } else {
        var parts := Split(s, sep);
        assert parts == [[s[0]] + rest[0]] + rest[1..];
        assert parts[0] == [s[0]] + rest[0];
        assert parts[1..] == rest[1..];
        forall k | 0 <= k < |parts| ensures sep !in parts[k] {
          if k > 0 { assert parts[k] == rest[k]; }
        }
        if |rest| == 1 {
          assert Join(parts, sep) == parts[0];
        } else {
          assert Join(rest, sep) == rest[0] + [sep] + Join(rest[1..], sep);
          assert Join(parts, sep) == parts[0] + [sep] + Join(rest[1..], sep);
        }
        assert s == [s[0]] + s[1..];
      }
    }
  }

  /** The first field of a split is the text up to the first separator. */
  lemma {:induction false} SplitHead(s: string, sep: char)
    ensures Split(s, sep)[0] == TakeUntil(s, sep)
    decreases |s|
  {
    if s != [] && s[0] != sep {
      SplitHead(s[1..], sep);
    }
  }

  /** A separator preceded by separator-free text `p` splits off `p` as the
      first field and leaves the split of what follows. */
  lemma {:induction false} SplitAfterField(p: string, q: string, sep: char)
    requires sep !in p
    ensures Split(p + [sep] + q, sep) == [p] + Split(q, sep)
    decreases |p|
  {
    var s := p + [sep] + q;
    if p == [] {
      assert s == [sep] + q;
      assert s[1..] == q;
    } else {
      assert s[1..] == p[1..] + [sep] + q;
      SplitAfterField(p[1..], q, sep);
      assert [p[0]] + p[1..] == p;
    }
  }

  // ---------------------------------------------------------------------
  // Python's str.strip() and str.lower()
  // ---------------------------------------------------------------------

  /** The characters Python's `str.isspace()` accepts, which `strip()` removes. */
  predicate IsPySpace(c: char) {
    ('\t' <= c <= '\r') || ('\U{001C}' <= c <= '\U{001F}') || c == ' '
    || c == '\U{0085}' || c == '\U{00A0}' || c == '\U{1680}'
    || ('\U{2000}' <= c <= '\U{200A}') || c == '\U{2028}' || c == '\U{2029}'
    || c == '\U{202F}' || c == '\U{205F}' || c == '\U{3000}'
  }

  predicate AllPySpace(s: string) {
    forall i :: 0 <= i < |s| ==> IsPySpace(s[i])
  }

  function TrimStart(s: string): string
    decreases |s|
  {
    if s != [] && IsPySpace(s[0]) then TrimStart(s[1..]) else s
  }

  function TrimEnd(s: string): string
    decreases |s|
  {
    if s != [] && IsPySpace(s[|s| - 1]) then TrimEnd(s[..|s| - 1]) else s
  }

  /** `s.strip()` with no argument. */
  function Strip(s: string): string {
    TrimEnd(TrimStart(s))
  }

  /** `s.lower()` for the ASCII letters; other characters are kept. */
  function Lower(s: string): (r: string)
    ensures |r| == |s|
    ensures forall i :: 0 <= i < |s| ==> r[i] == LowerChar(s[i])
  {
    seq(|s|, i requires 0 <= i < |s| => LowerChar(s[i]))
  }

  function LowerChar(c: char): char {
    if 'A' <= c <= 'Z' then (c as int + 32) as char else c
  }

  lemma {:induction false} TrimStartSkipsSpace(w: string, x: string)
    requires AllPySpace(w)
    ensures TrimStart(w + x) == TrimStart(x)
    decreases |w|
  {
    if w != [] {
      assert IsPySpace((w + x)[0]);
      assert (w + x)[1..] == w[1..] + x;
      assert AllPySpace(w[1..]) by {
        forall i | 0 <= i < |w[1..]| ensures IsPySpace(w[1..][i]) { assert w[1..][i] == w[i + 1]; }
      }
      TrimStartSkipsSpace(w[1..], x);
    } else {
      assert w + x == x;
    }
  }

  lemma {:induction false} TrimEndSkipsSpace(x: string, w: string)
    requires AllPySpace(w)
    ensures TrimEnd(x + w) == TrimEnd(x)
    decreases |w|
  {
    if w != [] {
      var u := w[..|w| - 1];
      assert IsPySpace((x + w)[|x + w| - 1]);
      assert (x + w)[..|x + w| - 1] == x + u;
      assert AllPySpace(u) by {
        forall i | 0 <= i < |u| ensures IsPySpace(u[i]) { assert u[i] == w[i]; }
      }
      TrimEndSkipsSpace(x, u);
    } else {
      assert x + w == x;
    }
  }

  /** Appending whitespace to `e` appends it to `TrimStart(e)`, unless `e`
      is all whitespace, when everything goes. */
  lemma {:induction false} TrimStartAppendSpace(e: string, w: string)
    requires AllPySpace(w)
    ensures TrimStart(e + w) == if AllPySpace(e) then "" else TrimStart(e) + w
    decreases |e|
  {
    if AllPySpace(e) {
      TrimStartSkipsSpace(e, w);
      TrimStartSkipsSpace(w, "");
      assert w + "" == w;
      assert e + w == e + w + "";
    } else if IsPySpace(e[0]) {
      assert (e + w)[1..] == e[1..] + w;
      assert !AllPySpace(e[1..]) by {
        var i :| 0 <= i < |e| && !IsPySpace(e[i]);
        assert e[1..][i - 1] == e[i];
      }
      TrimStartAppendSpace(e[1..], w);
    }
  }

  /** `strip()` ignores any whitespace padding around its argument. */
  lemma StripIgnoresPadding(w1: string, e: string, w2: string)
    requires AllPySpace(w1) && AllPySpace(w2)
    ensures Strip(w1 + e + w2) == Strip(e)
  {
    assert w1 + e + w2 == w1 + (e + w2);
    TrimStartSkipsSpace(w1, e + w2);
    TrimStartAppendSpace(e, w2);
    if AllPySpace(e) {
      TrimStartSkipsSpace(e, "");
      assert e + "" == e;
    } else {
      TrimEndSkipsSpace(TrimStart(e), w2);
    }
  }

  /** Stripping twice is stripping once. */
  lemma StripIdempotent(s: string)
    ensures Strip(Strip(s)) == Strip(s)
  {
    StripHasNoPadding(s);
  }

  /** Lower-casing twice is lower-casing once. */
  lemma LowerIdempotent(s: string)
    ensures Lower(Lower(s)) == Lower(s)
  {
  }

  /** The result of `strip()` neither starts nor ends with whitespace. */
  lemma {:induction false} StripHasNoPadding(s: string)
    ensures Strip(s) == [] || (!IsPySpace(Strip(s)[0]) && !IsPySpace(Strip(s)[|Strip(s)| - 1]))
  {
    TrimStartNoLeadingSpace(s);
    TrimEndKeepsStart(TrimStart(s));
  }

  lemma {:induction false} TrimStartNoLeadingSpace(s: string)
    ensures TrimStart(s) == [] || !IsPySpace(TrimStart(s)[0])
    decreases |s|
  {
    if s != [] && IsPySpace(s[0]) { TrimStartNoLeadingSpace(s[1..]); }
  }

  /** `TrimEnd` only drops a suffix; it leaves no trailing whitespace and,
      if anything is left, keeps the first character. */
  lemma {:induction false} TrimEndKeepsStart(s: string)
    ensures TrimEnd(s) == [] || TrimEnd(s)[0] == s[0]
    ensures TrimEnd(s) == [] || !IsPySpace(TrimEnd(s)[|TrimEnd(s)| - 1])
    decreases |s|
  {
    if s != [] && IsPySpace(s[|s| - 1]) {
      TrimEndKeepsStart(s[..|s| - 1]);
    }
  }

  // ---------------------------------------------------------------------
  // JavaScript's String.prototype.trim(), as far as `!s.trim()` needs it
  // ---------------------------------------------------------------------

  /** WhiteSpace and LineTerminator in the ECMAScript grammar: what `trim()` removes. */
  predicate IsJsSpace(c: char) {
    ('\t' <= c <= '\r') || c == ' ' || c == '\U{00A0}' || c == '\U{1680}'
    || ('\U{2000}' <= c <= '\U{200A}') || c == '\U{2028}' || c == '\U{2029}'
    || c == '\U{202F}' || c == '\U{205F}' || c == '\U{3000}' || c == '\U{FEFF}'
  }

  /** `!s.trim()`: the string is empty once its whitespace is removed. */
  predicate JsBlank(s: string) {
    forall i :: 0 <= i < |s| ==> IsJsSpace(s[i])
  }

  // ---------------------------------------------------------------------
  // Decimal rendering of integers
  // ---------------------------------------------------------------------

  function DigitChar(d: nat): char
    requires d < 10
  {
    ('0' as int + d) as char
  }

  function Digits(n: nat): (s: string)
    ensures |s| >= 1
    ensures forall i :: 0 <= i < |s| ==> '0' <= s[i] <= '9'
    decreases n
  {
    if n < 10 then [DigitChar(n)] else Digits(n / 10) + [DigitChar(n % 10)]
  }

  /** `str(n)` in Python and `String(n)` in JavaScript: a minus sign for a
      negative number, then decimal digits. */
  function Decimal(n: int): (s: string)
    ensures |s| >= 1
    ensures s[0] == '-' <==> n < 0
    ensures forall i :: (if n < 0 then 1 else 0) <= i < |s| ==> '0' <= s[i] <= '9'
  {
    if n < 0 then "-" + Digits(-n) else Digits(n)
  }

  /** Reading a string of decimal digits back as a number. */
  function DigitsValue(s: string): int
    decreases |s|
  {
    if s == [] then 0 else DigitsValue(s[..|s| - 1]) * 10 + (s[|s| - 1] as int - '0' as int)
  }

  lemma {:induction false} DigitsRoundTrip(n: nat)
    ensures DigitsValue(Digits(n)) == n
    decreases n
  {
    if n >= 10 {
      DigitsRoundTrip(n / 10);
      var s := Digits(n);
      assert s[..|s| - 1] == Digits(n / 10);
    }
  }

  /** Reading a rendered integer back, sign included. */
  function DecimalValue(s: string): int {
    if s != [] && s[0] == '-' then -DigitsValue(s[1..]) else DigitsValue(s)
  }

  lemma DecimalRoundTrip(n: int)
    ensures DecimalValue(Decimal(n)) == n
  {
    if n < 0 {
      var d := Digits(-n);
      assert Decimal(n) == "-" + d;
      assert ("-" + d)[1..] == d;
      DigitsRoundTrip(-n);
    } else {
      assert '0' <= Digits(n)[0] <= '9';
      DigitsRoundTrip(n);
    }
  }

  /** Distinct numbers have distinct decimal renderings, so comparing the
      rendered ids of two messages is comparing the numbers. */
  lemma DecimalInjective(a: int, b: int)
    requires Decimal(a) == Decimal(b)
    ensures a == b
  {
    DecimalRoundTrip(a);
    DecimalRoundTrip(b);
  }
}
