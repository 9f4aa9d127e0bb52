/** The optional value every module uses for "absent" (a nil reference, a missing map key). */
module Wrappers {
  datatype Option<T> = None | Some(value: T)
}

/**
 * The pieces of Go's `strings`, `strconv` and `fmt` packages the bot relies on,
 * over strings as sequences of Unicode scalar values.
 */
module Text {
  import opened Wrappers

  /** `unicode.IsSpace`: ASCII white space, NEL, NBSP and the other Unicode White_Space characters. */
  predicate IsSpace(c: char) {
    c == '\t' || c == '\n' || c == '\U{B}' || c == '\U{C}' || c == '\r' || c == ' '
    || c == '\U{85}' || c == '\U{A0}' || c == '\U{1680}'
    || ('\U{2000}' <= c <= '\U{200A}')
    || c == '\U{2028}' || c == '\U{2029}' || c == '\U{202F}' || c == '\U{205F}' || c == '\U{3000}'
  }

  predicate NoSpace(w: string) {
    forall k :: 0 <= k < |w| ==> !IsSpace(w[k])
  }

  predicate AllSpace(w: string) {
    forall k :: 0 <= k < |w| ==> IsSpace(w[k])
  }

  // ---------------------------------------------------------------- case

  /** The upper-case letters whose lower-case mapping is modelled: A-Z, Latin-1 U+00C0-U+00DE but U+00D7, the Polish capitals, Cyrillic U+0400-U+042F. */
  predicate IsUpperChar(c: char) {
    ('A' <= c <= 'Z')
    || ('\U{C0}' <= c <= '\U{DE}' && c != '\U{D7}')
    || ('\U{400}' <= c <= '\U{42F}')
    || c == '\U{104}' || c == '\U{106}' || c == '\U{118}' || c == '\U{141}'
    || c == '\U{143}' || c == '\U{15A}' || c == '\U{179}' || c == '\U{17B}'
  }

  /** `unicode.ToLower` restricted to the letters of IsUpperChar; every other character maps to itself. */
  function LowerChar(c: char): (d: char)
    ensures !IsUpperChar(d)
    ensures !IsUpperChar(c) ==> d == c
    ensures IsSpace(d) <==> IsSpace(c)
  {
    if ('A' <= c <= 'Z') || ('\U{C0}' <= c <= '\U{DE}' && c != '\U{D7}') || ('\U{410}' <= c <= '\U{42F}') then
      (c as int + 32) as char
    else if '\U{400}' <= c <= '\U{40F}' then
      (c as int + 80) as char
    else if IsUpperChar(c) then
      (c as int + 1) as char
    else
      c
  }

  predicate IsLower(s: string) {
    forall k :: 0 <= k < |s| ==> !IsUpperChar(s[k])
  }

  /** `strings.ToLower`: maps every character, keeps the length, and yields a string with no upper-case letter. */
  function Lower(s: string): (r: string)
    ensures |r| == |s|
    ensures forall k :: 0 <= k < |s| ==> r[k] == LowerChar(s[k])
    ensures IsLower(r)
    ensures IsLower(s) ==> r == s
  {
    seq(|s|, k requires 0 <= k < |s| => LowerChar(s[k]))
  }

  lemma LowerConcat(a: string, b: string)
    ensures Lower(a + b) == Lower(a) + Lower(b)
  {
  }

  // ---------------------------------------------------------------- search

  /** `sub` occurs in `s` starting at index `i`. */
  predicate OccursAt(s: string, sub: string, i: nat) {
    i + |sub| <= |s| && s[i..i + |sub|] == sub
  }

  /** `strings.Contains`: `sub` occurs at some position of `s`. */
  predicate Contains(s: string, sub: string) {
    exists i: nat :: i <= |s| && OccursAt(s, sub, i)
  }

  lemma ContainsEmpty(s: string)
    ensures Contains(s, "")
  {
    assert OccursAt(s, "", 0);
  }

  lemma ContainsSlice(s: string, i: nat, j: nat)
    requires i <= j <= |s|
    ensures Contains(s, s[i..j])
  {
    assert OccursAt(s, s[i..j], i);
  }

  /** Contains is preserved by adding text on either side. */
  lemma ContainsExtend(pre: string, s: string, post: string, sub: string)
    requires Contains(s, sub)
    ensures Contains(pre + s + post, sub)
  {
    var i: nat :| i <= |s| && OccursAt(s, sub, i);
    var t := pre + s + post;
    assert t[|pre| + i..|pre| + i + |sub|] == sub;
    assert OccursAt(t, sub, |pre| + i);
  }

  /** A string that lacks the first character of `sub` cannot contain `sub`. */
  lemma NotContainsFirstChar(s: string, sub: string)
    requires sub != [] && sub[0] !in s
    ensures !Contains(s, sub)
  {
    forall i: nat | i <= |s| ensures !OccursAt(s, sub, i) {
      if i + |sub| <= |s| {
        assert s[i..i + |sub|][0] == s[i];
        assert s[i] in s;
      }
    }
  }

  /** `strings.HasPrefix`. */
  predicate HasPrefix(s: string, p: string) {
    p <= s
  }

  /** The index of the first occurrence of `c`, as `strings.Index` for a one-character separator. */
  function IndexOf(s: string, c: char): (r: Option<nat>)
    ensures r.None? <==> c !in s
    ensures r.Some? ==> r.value < |s| && s[r.value] == c && c !in s[..r.value]
  {
    if s == [] then None
    else if s[0] == c then Some(0)
    else match IndexOf(s[1..], c)
      case None => None
      case Some(k) => assert s[..k + 1] == [s[0]] + s[1..][..k]; Some(k + 1)
  }

  // ---------------------------------------------------------------- trimming and splitting

  function TrimLeft(s: string): (r: string)
    ensures |r| <= |s| && r == s[|s| - |r|..]
    ensures AllSpace(s[..|s| - |r|])
    ensures r == [] || !IsSpace(r[0])
  {
    if s != [] && IsSpace(s[0]) then
      var r := TrimLeft(s[1..]);
      assert s[1..][|s| - 1 - |r|..] == s[|s| - |r|..];
      assert forall k :: 1 <= k < |s| - |r| ==> s[k] == s[1..][..|s| - 1 - |r|][k - 1];
      r
    else s
  }

  function TrimRight(s: string): (r: string)
    ensures |r| <= |s| && r == s[..|r|]
    ensures AllSpace(s[|r|..])
    ensures r == [] || !IsSpace(r[|r| - 1])
  {
    if s != [] && IsSpace(s[|s| - 1]) then
      var r := TrimRight(s[..|s| - 1]);
      assert forall k :: |r| <= k < |s| - 1 ==> s[k] == s[..|s| - 1][|r|..][k - |r|];
      r
    else s
  }

  /** `strings.TrimSpace`: `s` without its leading and trailing white space. */
  function TrimSpace(s: string): (r: string)
    ensures |r| <= |s|
    ensures r == [] || (!IsSpace(r[0]) && !IsSpace(r[|r| - 1]))
    ensures (s == [] || (!IsSpace(s[0]) && !IsSpace(s[|s| - 1]))) ==> r == s
  {
    TrimRight(TrimLeft(s))
  }

  /** TrimSpace removes exactly the white-space padding around a word that neither starts nor ends with white space. */
  lemma {:induction false} TrimSpacePadded(pre: string, w: string, post: string)
    requires AllSpace(pre) && AllSpace(post)
    requires w == [] || (!IsSpace(w[0]) && !IsSpace(w[|w| - 1]))
    requires w == [] ==> post == []
    ensures TrimSpace(pre + w + post) == w
  {
    var t := w + post;
    assert t == [] || t[0] == w[0];
    assert pre + w + post == pre + t;
    TrimLeftPadded(pre, t);
    TrimRightPadded(w, post);
  }

  lemma {:induction false} TrimLeftPadded(pre: string, t: string)
    requires AllSpace(pre) && (t == [] || !IsSpace(t[0]))
    ensures TrimLeft(pre + t) == t
    decreases |pre|
  {
    if pre != [] {
      assert (pre + t)[1..] == pre[1..] + t;
      TrimLeftPadded(pre[1..], t);
    }
  }

  lemma {:induction false} TrimRightPadded(t: string, post: string)
    requires AllSpace(post) && (t == [] || !IsSpace(t[|t| - 1]))
    ensures TrimRight(t + post) == t
    decreases |post|
  {
    if post != [] {
      assert (t + post)[..|t + post| - 1] == t + post[..|post| - 1];
      TrimRightPadded(t, post[..|post| - 1]);
    } else {
      assert t + post == t;
    }
  }

  /** The end of the word that starts at `i`: the first white-space index at or after `i`, or |s|. */
  function WordEnd(s: string, i: nat): (j: nat)
    requires i <= |s|
    ensures i <= j <= |s|
    ensures NoSpace(s[i..j])
    ensures j < |s| ==> IsSpace(s[j])
    decreases |s| - i
  {
    if i == |s| || IsSpace(s[i]) then i
    else
      var j := WordEnd(s, i + 1);
      assert forall k :: i + 1 <= k < j ==> s[i + 1..j][k - i - 1] == s[k];
      j
  }

  /** `strings.Fields`: the maximal runs of non-white-space characters, in order. */
  function Fields(s: string): (ws: seq<string>)
    ensures forall k :: 0 <= k < |ws| ==> ws[k] != [] && NoSpace(ws[k])
    decreases |s|
  {
    if s == [] then []
    else if IsSpace(s[0]) then Fields(s[1..])
    else
      var j := WordEnd(s, 0);
      [s[..j]] + Fields(s[j..])
  }

  /** Every field is a piece of the text it came from. */
  lemma {:induction false} FieldIsSubstring(s: string, w: string)
    requires w in Fields(s)
    ensures Contains(s, w)
    decreases |s|
  {
    if IsSpace(s[0]) {
      FieldIsSubstring(s[1..], w);
      ContainsExtend([s[0]], s[1..], "", w);
      assert [s[0]] + s[1..] + "" == s;
    } else {
      var j := WordEnd(s, 0);
      if w == s[..j] {
        ContainsSlice(s, 0, j);
      } else {
        FieldIsSubstring(s[j..], w);
        ContainsExtend(s[..j], s[j..], "", w);
        assert s[..j] + s[j..] + "" == s;
      }
    }
  }

  /** A string with no white space and at least one character is its own single field. */
  lemma {:induction false} FieldsOfWord(w: string)
    requires w != [] && NoSpace(w)
    ensures Fields(w) == [w]
  {
    WordEndOfWord(w, 0);
    assert w[..|w|] == w;
    assert w[|w|..] == [];
  }

  lemma {:induction false} WordEndOfWord(w: string, i: nat)
    requires i <= |w| && NoSpace(w)
    ensures WordEnd(w, i) == |w|
    decreases |w| - i
  {
    if i < |w| {
      WordEndOfWord(w, i + 1);
    }
  }

  /** Fields of a word, a run of spaces and more text. */
  lemma {:induction false} FieldsCons(w: string, sp: string, rest: string)
    requires w != [] && NoSpace(w)
    requires sp != [] && AllSpace(sp)
    ensures Fields(w + sp + rest) == [w] + Fields(rest)
  {
    var s := w + sp + rest;
    WordEndPrefix(w, sp + rest, 0);
    assert s == w + (sp + rest);
    assert s[..|w|] == w;
    assert s[|w|..] == sp + rest;
    FieldsSkipSpace(sp, rest);
  }

  lemma {:induction false} WordEndPrefix(w: string, t: string, i: nat)
    requires i <= |w| && NoSpace(w)
    requires t != [] && IsSpace(t[0])
    ensures WordEnd(w + t, i) == |w|
    decreases |w| - i
  {
    if i < |w| {
      WordEndPrefix(w, t, i + 1);
    }
  }

  lemma {:induction false} FieldsSkipSpace(sp: string, rest: string)
    requires AllSpace(sp)
    ensures Fields(sp + rest) == Fields(rest)
    decreases |sp|
  {
    if sp != [] {
      var s := sp + rest;
      assert s != [] && s[0] == sp[0] && IsSpace(s[0]);
      assert s[1..] == sp[1..] + rest;
      FieldsSkipSpace(sp[1..], rest);
      assert Fields(s) == Fields(s[1..]);
    } else {
      assert sp + rest == rest;
    }
  }

  // ---------------------------------------------------------------- byte length

  /** The number of bytes the UTF-8 encoding of `c` takes. */
  function Utf8Len(c: char): (n: nat)
    ensures 1 <= n <= 4
    ensures n == 1 <==> c < '\U{80}'
  {
    if c < '\U{80}' then 1
    else if c < '\U{800}' then 2
    else if c < '\U{10000}' then 3
    else 4
  }

  /** Go's `len` of a string: its length in UTF-8 bytes, which is its length in characters only for ASCII. */
  function ByteLen(s: string): (n: nat)
    ensures |s| <= n <= 4 * |s|
    ensures (forall k :: 0 <= k < |s| ==> s[k] < '\U{80}') ==> n == |s|
  {
    if s == [] then 0 else Utf8Len(s[0]) + ByteLen(s[1..])
  }

  // ---------------------------------------------------------------- integers

  predicate IsDigit(c: char) {
    '0' <= c <= '9'
  }

  predicate AllDigits(s: string) {
    forall k :: 0 <= k < |s| ==> IsDigit(s[k])
  }

  function DigitChar(d: nat): (c: char)
    requires d < 10
    ensures IsDigit(c) && c as int - '0' as int == d
  {
    ('0' as int + d) as char
  }

  /** Decimal digits of a natural number, most significant first, without leading zeros. */
  function Digits(n: nat): (s: string)
    ensures s != [] && AllDigits(s)
    ensures '_' !in s && '-' !in s
    decreases n
  {
    if n < 10 then [DigitChar(n)] else Digits(n / 10) + [DigitChar(n % 10)]
  }

  /** The value of a string of decimal digits. */
  function DigitsValue(s: string): nat
    requires AllDigits(s)
  {
    if s == [] then 0 else DigitsValue(s[..|s| - 1]) * 10 + (s[|s| - 1] as int - '0' as int)
  }

  lemma {:induction false} DigitsRoundTrip(n: nat)
    ensures DigitsValue(Digits(n)) == n
    decreases n
  {
    if n >= 10 {
      var s := Digits(n);
      assert s[..|s| - 1] == Digits(n / 10);
      DigitsRoundTrip(n / 10);
    }
  }

  /** `strconv.Itoa` / `fmt`'s `%d`: an optional minus sign and the decimal digits. */
  function FormatInt(i: int): (s: string)
    ensures s != [] && '_' !in s
  {
    if i < 0 then "-" + Digits(-i) else Digits(i)
  }

  /** `strconv.Atoi`: an optional sign and one or more decimal digits making up the whole string. */
  function Atoi(s: string): (r: Option<int>)
    ensures r.Some? ==> s != [] && (IsDigit(s[0]) || ((s[0] == '+' || s[0] == '-') && |s| >= 2))
    ensures r.Some? ==> forall k :: 1 <= k < |s| ==> IsDigit(s[k])
    ensures s != [] && AllDigits(s) ==> r == Some(DigitsValue(s))
  {
    if s != [] && (s[0] == '+' || s[0] == '-') then
      var d := s[1..];
      if d != [] && AllDigits(d) then Some(if s[0] == '-' then 0 - DigitsValue(d) else DigitsValue(d)) else None
    else if s != [] && AllDigits(s) then Some(DigitsValue(s))
    else None
  }

  /** Atoi reads back every integer FormatInt writes. */
  lemma AtoiFormatInt(i: int)
    ensures Atoi(FormatInt(i)) == Some(i)
  {
    var s := FormatInt(i);
    if i < 0 {
      var d := Digits(-i);
      assert s == "-" + d;
      assert s[0] == '-' && s[1..] == d;
      DigitsRoundTrip(-i);
      assert Atoi(s) == Some(0 - DigitsValue(d));
    } else {
      assert s == Digits(i);
      assert IsDigit(s[0]);
      DigitsRoundTrip(i);
      assert Atoi(s) == Some(DigitsValue(s));
    }
  }

  /** The length of the run of decimal digits at the start of `s`. */
  function DigitRun(s: string): (n: nat)
    ensures n <= |s| && AllDigits(s[..n])
    ensures n < |s| ==> !IsDigit(s[n])
  {
    if s != [] && IsDigit(s[0]) then
      var n := DigitRun(s[1..]) + 1;
      assert forall k :: 1 <= k < n ==> s[..n][k] == s[1..][..n - 1][k - 1];
      n
    else 0
  }

  /**
   * `fmt.Sscanf` reading one `%d` at the start of `s`: white space other than a newline is skipped,
   * then an optional sign and a run of the decimal digits 0-9 are read; at least one digit is needed,
   * and whatever follows the run is ignored.
   */
  function ScanInt(s: string): (r: Option<int>)
    ensures r.Some? ==> exists k :: 0 <= k < |s| && IsDigit(s[k])
    ensures s != [] && IsDigit(s[0]) ==> r.Some?
    decreases |s|
  {
    if s == [] || s[0] == '\n' then None
    else if IsSpace(s[0]) then ScanInt(s[1..])
    else
      var neg := s[0] == '-';
      var body := if s[0] == '+' || s[0] == '-' then s[1..] else s;
      var n := DigitRun(body);
      if n == 0 then None
      else Some(if neg then 0 - DigitsValue(body[..n]) else DigitsValue(body[..n]))
  }

  /** The digit run of digits followed by a non-digit (or nothing) is exactly those digits. */
  lemma {:induction false} DigitRunPrefix(d: string, rest: string)
    requires AllDigits(d)
    requires rest == [] || !IsDigit(rest[0])
    ensures DigitRun(d + rest) == |d|
  {
    if d != [] {
      assert (d + rest)[1..] == d[1..] + rest;
      DigitRunPrefix(d[1..], rest);
    } else {
      assert d + rest == rest;
    }
  }

  /** Scanning an unsigned digit string followed by a non-digit (or nothing) gives the digits' value. */
  lemma ScanDigits(d: string, rest: string)
    requires d != [] && AllDigits(d)
    requires rest == [] || !IsDigit(rest[0])
    ensures ScanInt(d + rest) == Some(DigitsValue(d))
  {
    var s := d + rest;
    assert s[0] == d[0];
    assert IsDigit(s[0]) && !IsSpace(s[0]) && s[0] != '\n' && s[0] != '+' && s[0] != '-';
    DigitRunPrefix(d, rest);
    assert s[..|d|] == d;
  }

  /** The same after a minus sign. */
  lemma ScanNegDigits(f: string, d: string, rest: string)
    requires f == "-" + d
    requires d != [] && AllDigits(d)
    requires rest == [] || !IsDigit(rest[0])
    ensures ScanInt(f + rest) == Some(0 - DigitsValue(d))
  {
    var body := d + rest;
    assert (f + rest)[1..] == body;
    DigitRunPrefix(d, rest);
    assert body[..|d|] == d;
  }

  lemma FormatNegative(i: int)
    requires i < 0
    ensures FormatInt(i) == "-" + Digits(-i)
  {
  }

  lemma ScanNegValue(f: string, n: nat, rest: string)
    requires f == "-" + Digits(n)
    requires rest == [] || !IsDigit(rest[0])
    ensures ScanInt(f + rest) == Some(-(n as int))
  {
    ScanNegDigits(f, Digits(n), rest);
    DigitsRoundTrip(n);
  }

  lemma ScanNegFormat(i: int, rest: string)
    requires i < 0
    requires rest == [] || !IsDigit(rest[0])
    ensures ScanInt(FormatInt(i) + rest) == Some(i)
  {
    FormatNegative(i);
    ScanNegValue(FormatInt(i), -i, rest);
  }

  lemma ScanNatFormat(i: int, rest: string)
    requires i >= 0
    requires rest == [] || !IsDigit(rest[0])
    ensures ScanInt(FormatInt(i) + rest) == Some(i)
  {
    var d := Digits(i);
    DigitsRoundTrip(i);
    ScanDigits(d, rest);
    assert FormatInt(i) + rest == d + rest;
  }

  /** Sscanf's `%d` reads back every integer FormatInt writes, and ignores what follows a non-digit. */
  lemma ScanIntIgnoresRest(i: int, rest: string)
    requires rest == [] || !IsDigit(rest[0])
    ensures ScanInt(FormatInt(i) + rest) == Some(i)
  {
    if i < 0 {
      ScanNegFormat(i, rest);
    } else {
      ScanNatFormat(i, rest);
    }
  }

  /** Sscanf's `%d` reads back every integer FormatInt writes. */
  lemma ScanIntFormatInt(i: int)
    ensures ScanInt(FormatInt(i)) == Some(i)
  {
    ScanIntIgnoresRest(i, []);
    assert FormatInt(i) + [] == FormatInt(i);
  }

  /** `strings.Repeat` of a single character; the source's calls panic on a negative count, which callers rule out. */
  function Repeat(c: char, n: nat): (r: string)
    ensures |r| == n && forall k :: 0 <= k < n ==> r[k] == c
  {
    seq(n, _ => c)
  }
}
