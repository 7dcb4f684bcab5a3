/** The parts of Python's built-in string behaviour the program relies on:
    `str.strip()`, `str.partition(sep)`, `str(int)` and `int(str)`. */
module PyText {
  import opened Wrappers

  // ---------------------------------------------------------------------------
  // Whitespace and str.strip()
  // ---------------------------------------------------------------------------

  /** Python's `str.isspace()` for a single character. */
  predicate IsWhitespace(c: char) {
    || c == ' '
    || ('\t' <= c <= '\r')
    || ('\U{1c}' <= c <= '\U{1f}')
    || c == '\U{85}' || c == '\U{a0}' || c == '\U{1680}'
    || ('\U{2000}' <= c <= '\U{200a}')
    || c == '\U{2028}' || c == '\U{2029}' || c == '\U{202f}' || c == '\U{205f}' || c == '\U{3000}'
  }

  /** The two whitespace sets the program meets: `str.strip()` cuts every
      `isspace()` character, while `int()` skips only the C-locale spaces
      among ASCII characters (the separators U+001C..U+001F are not among
      them) and every Unicode space above ASCII, which it first turns into
      a plain space. */
  datatype Spaces = StrSpaces | IntSpaces

  predicate IsSpace(ws: Spaces, c: char) {
    match ws
    case StrSpaces => IsWhitespace(c)
    case IntSpaces => IsWhitespace(c) && !('\U{1c}' <= c <= '\U{1f}')
  }

  ghost predicate AllSpace(ws: Spaces, s: string) {
    forall k :: 0 <= k < |s| ==> IsSpace(ws, s[k])
  }

  /** `r` is what remains of `s` once the whitespace run `s[..i]` in front and
      the whitespace run behind it are cut off. */
  ghost predicate TrimmedAt(ws: Spaces, s: string, r: string, i: int) {
    && 0 <= i <= |s| - |r|
    && s[i..i + |r|] == r
    && AllSpace(ws, s[..i])
    && AllSpace(ws, s[i + |r|..])
  }

  /** No whitespace at either end. */
  predicate Unpadded(ws: Spaces, r: string) {
    r == [] || (!IsSpace(ws, r[0]) && !IsSpace(ws, r[|r| - 1]))
  }

  /** Length of the leading whitespace run of `s`. */
  function LeadingSpace(ws: Spaces, s: string): (i: nat)
    ensures i <= |s|
    ensures forall k :: 0 <= k < i ==> IsSpace(ws, s[k])
    ensures i < |s| ==> !IsSpace(ws, s[i])
  {
    if |s| == 0 || !IsSpace(ws, s[0]) then 0 else 1 + LeadingSpace(ws, s[1..])
  }

  /** Where the trailing whitespace run of `s` begins. */
  function TrailingSpace(ws: Spaces, s: string): (j: nat)
    ensures j <= |s|
    ensures forall k :: j <= k < |s| ==> IsSpace(ws, s[k])
    ensures 0 < j ==> !IsSpace(ws, s[j - 1])
  {
    if |s| == 0 || !IsSpace(ws, s[|s| - 1]) then |s| else TrailingSpace(ws, s[..|s| - 1])
  }

  /** `s` with the whitespace of `ws` cut off at both ends. */
  function Trim(ws: Spaces, s: string): (r: string)
    ensures Unpadded(ws, r)
    ensures exists i :: TrimmedAt(ws, s, r, i)
  {
    var i := LeadingSpace(ws, s);
    var t := s[i..];
    var r := t[..TrailingSpace(ws, t)];
    assert s[i..i + |r|] == r;
    assert s[i + |r|..] == t[TrailingSpace(ws, t)..];
    assert TrimmedAt(ws, s, r, i);
    r
  }

  /** Python's `str.strip()` with no argument. */
  function Strip(s: string): string {
    Trim(StrSpaces, s)
  }

  /** Trim is determined by its contract: whatever cutting of `s` leaves an
      unpadded middle between two whitespace runs is what Trim returns. */
  lemma {:induction false} TrimUnique(ws: Spaces, s: string, r: string, i: int)
    requires TrimmedAt(ws, s, r, i) && Unpadded(ws, r)
    ensures Trim(ws, s) == r
  {
    var j := i + |r|;
    assert forall k :: 0 <= k < i ==> IsSpace(ws, s[k]) by {
      forall k | 0 <= k < i ensures IsSpace(ws, s[k]) { assert s[..i][k] == s[k]; }
    }
    assert forall k :: j <= k < |s| ==> IsSpace(ws, s[k]) by {
      forall k | j <= k < |s| ensures IsSpace(ws, s[k]) { assert s[j..][k - j] == s[k]; }
    }
    var l := LeadingSpace(ws, s);
    if r == [] {
      assert l == |s|;
      assert s[l..] == [];
    } else {
      assert s[i] == r[0] && s[j - 1] == r[|r| - 1];
      assert l == i;
      var t := s[i..];
      assert forall k :: |r| <= k < |t| ==> IsSpace(ws, t[k]) by {
        forall k | |r| <= k < |t| ensures IsSpace(ws, t[k]) { assert t[k] == s[i + k]; }
      }
      assert !IsSpace(ws, t[|r| - 1]);
      assert TrailingSpace(ws, t) == |r|;
      assert t[..|r|] == r;
    }
  }

  /** A string without whitespace at either end is left as it is. */
  lemma TrimUnpadded(ws: Spaces, s: string)
    requires Unpadded(ws, s)
    ensures Trim(ws, s) == s
  {
    assert s[0..|s|] == s && s[..0] == [] && s[|s|..] == [];
    TrimUnique(ws, s, s, 0);
  }

  /** Stripping twice is stripping once. */
  lemma StripIdempotent(s: string)
    ensures Strip(Strip(s)) == Strip(s)
  {
    TrimUnpadded(StrSpaces, Strip(s));
  }

  // ---------------------------------------------------------------------------
  // Substring search and str.partition(sep)
  // ---------------------------------------------------------------------------

  predicate OccursAt(s: string, sep: string, k: int) {
    0 <= k && k + |sep| <= |s| && s[k..k + |sep|] == sep
  }

  ghost predicate Contains(s: string, sep: string) {
    exists k :: OccursAt(s, sep, k)
  }

  /** The first occurrence of `sep` in `s` at index `from` or later. */
  function FindFrom(s: string, sep: string, from: nat): (r: Option<nat>)
    requires from <= |s|
    ensures r.Some? ==> from <= r.value && OccursAt(s, sep, r.value)
    ensures forall k :: from <= k && (r.None? || k < r.value) ==> !OccursAt(s, sep, k)
    decreases |s| - from
  {
    if OccursAt(s, sep, from) then Some(from)
    else if from == |s| then None
    else FindFrom(s, sep, from + 1)
  }

  /** The index of the first occurrence of `sep` in `s` (Python's `str.find`). */
  function FindFirst(s: string, sep: string): (r: Option<nat>)
    ensures r.Some? ==> OccursAt(s, sep, r.value)
    ensures r.Some? ==> forall k :: 0 <= k < r.value ==> !OccursAt(s, sep, k)
    ensures r.None? <==> !Contains(s, sep)
  {
    FindFrom(s, sep, 0)
  }

  /** Python's `str.partition(sep)`: the text before the first occurrence of
      `sep`, the separator itself and the text after it; `(s, "", "")` when
      `sep` does not occur. Python refuses an empty separator. */
  function Partition(s: string, sep: string): (r: (string, string, string))
    requires sep != []
    ensures r.0 + r.1 + r.2 == s
    ensures r.1 == sep <==> Contains(s, sep)
    ensures r.1 != sep ==> r == (s, [], [])
    ensures r.1 == sep ==> !Contains(r.0, sep) && OccursAt(s, sep, |r.0|)
    ensures r.1 == sep ==> forall k :: 0 <= k < |r.0| ==> !OccursAt(s, sep, k)
  {
    match FindFirst(s, sep)
    case None => (s, [], [])
    case Some(i) =>
      var r := (s[..i], sep, s[i + |sep|..]);
      assert r.0 + r.1 + r.2 == s by {
        assert s == s[..i] + s[i..i + |sep|] + s[i + |sep|..];
      }
      assert !Contains(r.0, sep) by {
        forall k | OccursAt(r.0, sep, k) ensures false {
          assert s[k..k + |sep|] == r.0[k..k + |sep|];
          assert OccursAt(s, sep, k);
        }
      }
      r
  }

  // ---------------------------------------------------------------------------
  // Decimal integers: str(int) and int(str)
  // ---------------------------------------------------------------------------

  predicate IsDigit(c: char) {
    '0' <= c <= '9'
  }

  function DigitChar(d: nat): (c: char)
    requires d < 10
    ensures IsDigit(c)
  {
    ('0' as int + d) as char
  }

  function DigitValue(c: char): (d: nat)
    requires IsDigit(c)
    ensures d < 10
  {
    c as int - '0' as int
  }

  /** Decimal digits of `n` without leading zeros. */
  function NatToString(n: nat): (s: string)
    ensures |s| > 0
    ensures forall k :: 0 <= k < |s| ==> IsDigit(s[k])
    ensures |s| > 1 ==> s[0] != '0'
  {
    if n < 10 then [DigitChar(n)] else NatToString(n / 10) + [DigitChar(n % 10)]
  }

  /** Python's `str(n)` for an integer. */
  function IntToString(n: int): string {
    if n < 0 then "-" + NatToString(-n) else NatToString(n)
  }

  /** A decimal literal as Python's `int()` accepts it: digits, with single
      underscores allowed between two digits. */
  predicate IsDecimalLiteral(s: string) {
    && |s| > 0
    && IsDigit(s[0])
    && IsDigit(s[|s| - 1])
    && (forall k :: 0 <= k < |s| ==> IsDigit(s[k]) || s[k] == '_')
    && (forall k :: 0 <= k < |s| - 1 && s[k] == '_' ==> s[k + 1] != '_')
  }

  /** Value of a run of digits and underscores, the underscores skipped. */
  function DigitsValue(s: string): nat
    requires forall k :: 0 <= k < |s| ==> IsDigit(s[k]) || s[k] == '_'
  {
    if s == [] then 0
    else if s[|s| - 1] == '_' then DigitsValue(s[..|s| - 1])
    else DigitsValue(s[..|s| - 1]) * 10 + DigitValue(s[|s| - 1])
  }

  /** Python's `int(arg)` in base 10: surrounding whitespace of `IntSpaces`
      is ignored, one optional sign, then a decimal literal; `None` is the
      `ValueError`. */
  function ParseInt(arg: string): Option<int> {
    var t := Trim(IntSpaces, arg);
    if |t| > 0 && (t[0] == '-' || t[0] == '+') then
      var body := t[1..];
      if IsDecimalLiteral(body) then
        var v: int := DigitsValue(body);
        Some(if t[0] == '-' then -v else v)
      else None
    else if IsDecimalLiteral(t) then Some(DigitsValue(t))
    else None
  }

  /** Reading back the digits of `n` gives `n`. */
  lemma {:induction false} NatToStringValue(n: nat)
    ensures IsDecimalLiteral(NatToString(n))
    ensures DigitsValue(NatToString(n)) == n
  {
    var s := NatToString(n);
    if n >= 10 {
      NatToStringValue(n / 10);
      assert s[..|s| - 1] == NatToString(n / 10);
    } else {
      assert s[..0] == [];
    }
  }

  lemma IntToStringUnpadded(n: int)
    ensures Unpadded(IntSpaces, IntToString(n))
  {
    var s := IntToString(n);
    if n < 0 {
      var digits := NatToString(-n);
      assert s[|s| - 1] == digits[|digits| - 1];
    }
  }

  /** `int(str(n)) == n` for every integer. */
  lemma IntToStringRoundTrip(n: int)
    ensures ParseInt(IntToString(n)) == Some(n)
  {
    var m: nat := if n < 0 then -n else n;
    var digits := NatToString(m);
    NatToStringValue(m);
    var s := IntToString(n);
    IntToStringUnpadded(n);
    TrimUnpadded(IntSpaces, s);
    if n < 0 {
      assert s[0] == '-';
      assert s[1..] == digits;
    } else {
      assert s == digits;
      assert IsDigit(s[0]);
    }
  }

  /** Whitespace added around a string is cut off with the rest. */
  lemma TrimPadding(ws: Spaces, pre: string, s: string, post: string)
    requires AllSpace(ws, pre) && AllSpace(ws, post)
    ensures Trim(ws, pre + s + post) == Trim(ws, s)
  {
    var t := Trim(ws, s);
    var i :| TrimmedAt(ws, s, t, i);
    var whole := pre + s + post;
    var j := |pre| + i;
    assert whole[j..j + |t|] == s[i..i + |t|];
    assert whole[..j] == pre + s[..i];
    assert whole[j + |t|..] == s[i + |t|..] + post;
    assert AllSpace(ws, pre + s[..i]) by {
      forall k | 0 <= k < j ensures IsSpace(ws, (pre + s[..i])[k]) {
        if k >= |pre| { assert (pre + s[..i])[k] == s[..i][k - |pre|]; }
      }
    }
    assert AllSpace(ws, s[i + |t|..] + post) by {
      var a := s[i + |t|..];
      forall k | 0 <= k < |a| + |post| ensures IsSpace(ws, (a + post)[k]) {
        if k < |a| { assert (a + post)[k] == a[k]; }
      }
    }
    assert TrimmedAt(ws, whole, t, j);
    TrimUnique(ws, whole, t, j);
  }

  /** Surrounding whitespace that `int()` skips does not change what it reads. */
  lemma ParseIntIgnoresPadding(pre: string, s: string, post: string)
    requires AllSpace(IntSpaces, pre) && AllSpace(IntSpaces, post)
    ensures ParseInt(pre + s + post) == ParseInt(s)
  {
    TrimPadding(IntSpaces, pre, s, post);
  }

  /** `int()` reads "5" as 5. */
  lemma ParseIntOfFive()
    ensures ParseInt("5") == Some(5)
  {
    TrimUnpadded(IntSpaces, "5");
    assert IsDecimalLiteral("5");
    assert DigitsValue("5") == 5;
  }

  /** `int()` reads " 5\n" as 5. */
  lemma ParseIntOfPaddedFive()
    ensures ParseInt(" 5\n") == Some(5)
  {
    assert " 5\n" == " " + "5" + "\n";
    assert AllSpace(IntSpaces, " ") && AllSpace(IntSpaces, "\n");
    ParseIntIgnoresPadding(" ", "5", "\n");
    ParseIntOfFive();
  }

  /** `str.strip()` cuts the information separator in front of "\x1c5". */
  lemma StripSeparator()
    ensures Strip("\U{1c}5") == "5"
  {
    assert "\U{1c}5" == "\U{1c}" + "5" + [];
    assert AllSpace(StrSpaces, "\U{1c}") && AllSpace(StrSpaces, []);
    TrimPadding(StrSpaces, "\U{1c}", "5", []);
    TrimUnpadded(StrSpaces, "5");
  }

  /** `int()` does not skip the information separators that `str.strip()`
      cuts: the strip of "\x1c5" is "5", but `int()` refuses it. */
  lemma ParseIntSeparators()
    ensures Strip("\U{1c}5") == "5"
    ensures ParseInt("\U{1c}5") == None
  {
    StripSeparator();
    var t := "\U{1c}5";
    TrimUnpadded(IntSpaces, t);
    assert !IsDigit(t[0]) && t[0] != '-' && t[0] != '+';
  }
}
