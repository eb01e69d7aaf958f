/**
 * The pieces of Rust's `str` API that the monitor relies on, over
 * `string` (a sequence of Unicode scalar values): `split`, `lines`,
 * `trim`, `split_whitespace`, `find`, `contains`, decimal printing with
 * `{}`/`{:0N}`, and `parse::<u64>()`.
 */
module Text {
  import opened Wrappers

  // ---------------------------------------------------------------------
  // Character classes
  // ---------------------------------------------------------------------

  /** `char::is_ascii_digit` */
  predicate IsAsciiDigit(c: char) {
    '0' <= c <= '9'
  }

  /** `char::is_whitespace`: the Unicode White_Space property. */
  predicate IsWhitespace(c: char) {
    var n := c as int;
    (9 <= n <= 13) || n == 0x20 || n == 0x85 || n == 0xA0 || n == 0x1680
    || (0x2000 <= n <= 0x200A) || n == 0x2028 || n == 0x2029 || n == 0x202F
    || n == 0x205F || n == 0x3000
  }

  predicate AllDigits(s: string) {
    forall i :: 0 <= i < |s| ==> IsAsciiDigit(s[i])
  }

  predicate NoWhitespace(s: string) {
    forall i :: 0 <= i < |s| ==> !IsWhitespace(s[i])
  }

  // ---------------------------------------------------------------------
  // Prefixes, suffixes, substrings
  // ---------------------------------------------------------------------

  /** `str::starts_with` */
  predicate StartsWith(s: string, prefix: string) {
    |prefix| <= |s| && s[..|prefix|] == prefix
  }

  /** `str::ends_with` */
  predicate EndsWith(s: string, suffix: string) {
    |suffix| <= |s| && s[|s| - |suffix|..] == suffix
  }

  /** `str::contains` with a string pattern. */
  predicate Contains(s: string, sub: string)
    decreases |s|
  {
    StartsWith(s, sub) || (|s| > 0 && Contains(s[1..], sub))
  }

  /** A text contains every infix it is built around. */
  lemma {:induction false} ContainsInfix(a: string, sub: string, b: string)
    ensures Contains(a + sub + b, sub)
    decreases |a|
  {
    var s := a + sub + b;
    if |a| == 0 {
      assert s[..|sub|] == sub;
    } else {
      assert s[1..] == a[1..] + sub + b;
      ContainsInfix(a[1..], sub, b);
    }
  }

  /** A text still contains a pattern once more text is put around it. */
  lemma {:induction false} ContainsWithin(a: string, s: string, sub: string, b: string)
    requires Contains(s, sub)
    ensures Contains(a + s + b, sub)
    decreases |a| + |s|
  {
    if |a| > 0 {
      assert (a + s + b)[1..] == a[1..] + s + b;
      ContainsWithin(a[1..], s, sub, b);
    } else if StartsWith(s, sub) {
      assert (a + s + b)[..|sub|] == s[..|sub|];
    } else {
      assert (a + s + b)[1..] == a + s[1..] + b;
      ContainsWithin(a, s[1..], sub, b);
    }
  }

  /** `str::find` with a char pattern: the index of the first occurrence. */
  function IndexOf(s: string, c: char): (r: Option<nat>)
    ensures r.Some? ==> r.value < |s| && s[r.value] == c
    decreases |s|
  {
    if |s| == 0 then None
    else if s[0] == c then Some(0)
    else match IndexOf(s[1..], c)
      case None => None
      case Some(i) => Some(i + 1)
  }

  /** A char that does not occur is not found. */
  lemma IndexOfAbsent(s: string, c: char)
    requires c !in s
    ensures IndexOf(s, c).None?
  {
  }

  /** A char that occurs is found. */
  lemma {:induction false} IndexOfFinds(s: string, c: char)
    requires c in s
    ensures IndexOf(s, c).Some?
    decreases |s|
  {
    if s[0] != c {
      assert c in s[1..] by {
        var k :| 0 <= k < |s| && s[k] == c;
        assert s[1..][k - 1] == c;
      }
      IndexOfFinds(s[1..], c);
    }
  }

  lemma {:induction false} IndexOfAfter(a: string, c: char, b: string)
    requires c !in a
    ensures IndexOf(a + [c] + b, c) == Some(|a|)
    decreases |a|
  {
    var s := a + [c] + b;
    if |a| == 0 {
      assert s[0] == c;
    } else {
      assert s[0] == a[0];
      assert s[1..] == a[1..] + [c] + b;
      IndexOfAfter(a[1..], c, b);
    }
  }

  // ---------------------------------------------------------------------
  // trim
  // ---------------------------------------------------------------------

  /** `str::trim_start` */
  function TrimStart(s: string): (r: string)
    ensures |r| <= |s| && r == s[|s| - |r|..]
    ensures |r| == 0 || !IsWhitespace(r[0])
    ensures forall i :: 0 <= i < |s| - |r| ==> IsWhitespace(s[i])
    decreases |s|
  {
    if |s| > 0 && IsWhitespace(s[0]) then
      var r := TrimStart(s[1..]);
      assert forall i :: 1 <= i < |s| ==> s[i] == s[1..][i - 1];
      r
    else s
  }

  /** `str::trim_end` */
  function TrimEnd(s: string): (r: string)
    ensures |r| <= |s| && r == s[..|r|]
    ensures |r| == 0 || !IsWhitespace(r[|r| - 1])
    ensures forall i :: |r| <= i < |s| ==> IsWhitespace(s[i])
    decreases |s|
  {
    if |s| > 0 && IsWhitespace(s[|s| - 1]) then
      var r := TrimEnd(s[..|s| - 1]);
      assert forall i :: 0 <= i < |s| - 1 ==> s[i] == s[..|s| - 1][i];
      r
    else s
  }

  /** `str::trim`: the longest infix that neither starts nor ends with whitespace. */
  function Trim(s: string): (r: string)
    ensures |r| <= |s|
    ensures |r| == 0 || (!IsWhitespace(r[0]) && !IsWhitespace(r[|r| - 1]))
  {
    TrimEnd(TrimStart(s))
  }

  function Repeat(c: char, n: nat): (r: string)
    ensures |r| == n && forall i :: 0 <= i < n ==> r[i] == c
  {
    if n == 0 then [] else [c] + Repeat(c, n - 1)
  }

  lemma {:induction false} TrimStartSkipsWhitespace(pad: string, t: string)
    requires forall i :: 0 <= i < |pad| ==> IsWhitespace(pad[i])
    requires |t| == 0 || !IsWhitespace(t[0])
    ensures TrimStart(pad + t) == t
    decreases |pad|
  {
    if |pad| > 0 {
      assert (pad + t)[1..] == pad[1..] + t;
      TrimStartSkipsWhitespace(pad[1..], t);
    } else {
      assert pad + t == t;
    }
  }

  /** A text that neither starts nor ends with whitespace is its own trim. */
  lemma TrimOfTrimmed(f: string)
    requires |f| == 0 || (!IsWhitespace(f[0]) && !IsWhitespace(f[|f| - 1]))
    ensures Trim(f) == f
  {
  }

  /** Trimming leading padding off a word with no whitespace gives the word. */
  lemma TrimPaddedWord(pad: string, w: string)
    requires forall i :: 0 <= i < |pad| ==> IsWhitespace(pad[i])
    requires |w| > 0 && NoWhitespace(w)
    ensures Trim(pad + w) == w
  {
    TrimStartSkipsWhitespace(pad, w);
  }

  // ---------------------------------------------------------------------
  // split on a char, and its inverse
  // ---------------------------------------------------------------------

  /** `str::split` with a char separator: always at least one part. */
  function Split(s: string, sep: char): (parts: seq<string>)
    ensures |parts| >= 1
    decreases |s|
  {
    if |s| == 0 then [""]
    else
      var rest := Split(s[1..], sep);
      if s[0] == sep then [""] + rest
      else [[s[0]] + rest[0]] + rest[1..]
  }

  /** `[..].join(sep)` */
  function Join(parts: seq<string>, sep: char): string
    requires |parts| >= 1
  {
    if |parts| == 1 then parts[0] else parts[0] + [sep] + Join(parts[1..], sep)
  }

  /** Joining the parts of a split gives back the text. */
  lemma {:induction false} JoinSplit(s: string, sep: char)
    ensures Join(Split(s, sep), sep) == s
    decreases |s|
  {
    if |s| > 0 {
      var rest := Split(s[1..], sep);
      JoinSplit(s[1..], sep);
      if s[0] != sep && |rest| > 1 {
        assert Join(rest, sep) == rest[0] + [sep] + Join(rest[1..], sep);
        assert rest[1..][1..] == rest[2..];
      }
    }
  }

  lemma {:induction false} SplitWithoutSeparator(a: string, sep: char)
    requires sep !in a
    ensures Split(a, sep) == [a]
    decreases |a|
  {
    if |a| > 0 {
      SplitWithoutSeparator(a[1..], sep);
      assert [a[0]] + a[1..] == a;
    }
  }

  lemma {:induction false} SplitAfterField(a: string, sep: char, b: string)
    requires sep !in a
    ensures Split(a + [sep] + b, sep) == [a] + Split(b, sep)
    decreases |a|
  {
    var s := a + [sep] + b;
    if |a| == 0 {
      assert s[1..] == b;
    } else {
      assert s[1..] == a[1..] + [sep] + b;
      SplitAfterField(a[1..], sep, b);
      assert [a[0]] + a[1..] == a;
    }
  }

  /** Splitting at a separator splits the two sides independently. */
  lemma {:induction false} SplitConcat(a: string, sep: char, b: string)
    ensures Split(a + [sep] + b, sep) == Split(a, sep) + Split(b, sep)
    decreases |a|
  {
    var s := a + [sep] + b;
    if |a| == 0 {
      assert s[1..] == b;
    } else {
      assert s[1..] == a[1..] + [sep] + b;
      SplitConcat(a[1..], sep, b);
    }
  }

  /** Splitting a join of separator-free parts gives back the parts. */
  lemma {:induction false} SplitJoin(parts: seq<string>, sep: char)
    requires |parts| >= 1
    requires forall i :: 0 <= i < |parts| ==> sep !in parts[i]
    ensures Split(Join(parts, sep), sep) == parts
    decreases |parts|
  {
    if |parts| == 1 {
      SplitWithoutSeparator(parts[0], sep);
    } else {
      SplitJoin(parts[1..], sep);
      SplitAfterField(parts[0], sep, Join(parts[1..], sep));
    }
  }

  // ---------------------------------------------------------------------
  // lines
  // ---------------------------------------------------------------------

  /** Drops one `\r` at the end, as `lines` does before a `\n`. */
  function StripCr(l: string): string {
    if |l| > 0 && l[|l| - 1] == '\r' then l[..|l| - 1] else l
  }

  /**
   * `str::lines`: split at `\n`, drop a `\r` right before each `\n`; a
   * final `\n` does not start another line and the empty text has none.
   */
  function Lines(s: string): (ls: seq<string>)
    decreases |s|
  {
    if |s| == 0 then []
    else match IndexOf(s, '\n')
      case None => [s]
      case Some(i) => [StripCr(s[..i])] + Lines(s[i + 1..])
  }

  /** Each line followed by `\n`, concatenated. */
  function JoinLines(ls: seq<string>): string {
    if |ls| == 0 then [] else ls[0] + "\n" + JoinLines(ls[1..])
  }

  lemma {:induction false} JoinLinesAppend(ls: seq<string>, l: string)
    ensures JoinLines(ls + [l]) == JoinLines(ls) + l + "\n"
    decreases |ls|
  {
    if |ls| > 0 {
      assert (ls + [l])[1..] == ls[1..] + [l];
      JoinLinesAppend(ls[1..], l);
    }
  }

  /** A line ended by `\n` is the first line, and the lines after it follow. */
  lemma LinesStep(head: string, rest: string)
    requires '\n' !in head
    ensures Lines(head + "\n" + rest) == [StripCr(head)] + Lines(rest)
  {
    var s := head + "\n" + rest;
    IndexOfAfter(head, '\n', rest);
    assert s[..|head|] == head;
    assert s[|head| + 1..] == rest;
  }

  lemma StripCrWithoutCr(l: string)
    requires '\r' !in l
    ensures StripCr(l) == l
  {
    if |l| > 0 {
      assert l[|l| - 1] in l;
    }
  }

  lemma JoinLinesCons(ls: seq<string>, x: string)
    requires |ls| > 0
    ensures JoinLines(ls) + x == ls[0] + "\n" + (JoinLines(ls[1..]) + x)
  {
  }

  /** A first line without breaks, then text whose lines are known. */
  lemma LinesCons(h: string, t: seq<string>, s: string, rest: string, tail: seq<string>)
    requires '\n' !in h && '\r' !in h
    requires s == h + "\n" + rest
    requires Lines(rest) == t + tail
    ensures Lines(s) == ([h] + t) + tail
  {
    LinesStep(h, rest);
    StripCrWithoutCr(h);
    assert [h] + (t + tail) == ([h] + t) + tail;
  }

  /** The lines of a text that starts with whole lines start with those lines. */
  lemma {:induction false} LinesAfterJoin(ls: seq<string>, x: string)
    requires forall i :: 0 <= i < |ls| ==> '\n' !in ls[i] && '\r' !in ls[i]
    ensures Lines(JoinLines(ls) + x) == ls + Lines(x)
    decreases |ls|
  {
    if |ls| > 0 {
      var t := ls[1..];
      assert forall i :: 0 <= i < |t| ==> t[i] == ls[i + 1];
      JoinLinesCons(ls, x);
      LinesAfterJoin(t, x);
      LinesCons(ls[0], t, JoinLines(ls) + x, JoinLines(t) + x, Lines(x));
      assert ls == [ls[0]] + t;
    } else {
      assert JoinLines(ls) + x == x;
    }
  }

  /**
   * A text without `\r` that is empty or ends in `\n` is its lines, each
   * followed by `\n`.
   */
  lemma {:induction false} LinesRoundTrip(s: string)
    requires '\r' !in s
    requires |s| == 0 || s[|s| - 1] == '\n'
    ensures JoinLines(Lines(s)) == s
    decreases |s|
  {
    if |s| > 0 {
      assert s[|s| - 1] in s;
      IndexOfFinds(s, '\n');
      var i := IndexOf(s, '\n').value;
      var head, t := s[..i], s[i + 1..];
      assert s == head + "\n" + t;
      assert '\r' !in head by {
        forall k | 0 <= k < |head| ensures head[k] != '\r' {
          assert head[k] == s[k];
        }
      }
      assert |t| == 0 || t[|t| - 1] == s[|s| - 1];
      LinesRoundTrip(t);
    }
  }

  // ---------------------------------------------------------------------
  // split_whitespace
  // ---------------------------------------------------------------------

  /** The length of the leading run of non-whitespace chars. */
  function WordLength(s: string): (n: nat)
    ensures n <= |s| && NoWhitespace(s[..n])
    ensures n < |s| ==> IsWhitespace(s[n])
    decreases |s|
  {
    if |s| == 0 || IsWhitespace(s[0]) then 0 else 1 + WordLength(s[1..])
  }

  /** `str::split_whitespace`: the non-empty maximal runs of non-whitespace chars. */
  function SplitWhitespace(s: string): seq<string>
    decreases |s|
  {
    var t := TrimStart(s);
    if |t| == 0 then []
    else
      var n := WordLength(t);
      [t[..n]] + SplitWhitespace(t[n..])
  }

  /** Every word is non-empty and holds no whitespace. */
  lemma {:induction false} SplitWhitespaceWords(s: string)
    ensures forall i :: 0 <= i < |SplitWhitespace(s)| ==> |SplitWhitespace(s)[i]| > 0 && NoWhitespace(SplitWhitespace(s)[i])
    decreases |s|
  {
    var t := TrimStart(s);
    if |t| > 0 {
      var n := WordLength(t);
      SplitWhitespaceWords(t[n..]);
    }
  }

  /** Words, each followed by one space. */
  function JoinWords(ws: seq<string>): string {
    if |ws| == 0 then [] else ws[0] + " " + JoinWords(ws[1..])
  }

  lemma {:induction false} WordLengthOfWord(w: string, rest: string)
    requires NoWhitespace(w) && (|rest| == 0 || IsWhitespace(rest[0]))
    ensures WordLength(w + rest) == |w|
    decreases |w|
  {
    if |w| == 0 {
      assert w + rest == rest;
    } else {
      assert (w + rest)[1..] == w[1..] + rest;
      WordLengthOfWord(w[1..], rest);
    }
  }

  lemma SplitWhitespaceSkipsSpace(rest: string)
    ensures SplitWhitespace(" " + rest) == SplitWhitespace(rest)
  {
    assert (" " + rest)[1..] == rest;
  }

  /** The first of the joined words splits off as the first word. */
  lemma SplitWhitespaceFirstWord(ws: seq<string>)
    requires |ws| > 0 && |ws[0]| > 0 && NoWhitespace(ws[0])
    ensures SplitWhitespace(JoinWords(ws)) == [ws[0]] + SplitWhitespace(JoinWords(ws[1..]))
  {
    var w, rest := ws[0], JoinWords(ws[1..]);
    var s := w + (" " + rest);
    assert JoinWords(ws) == s;
    assert s[0] == w[0];
    assert TrimStart(s) == s;
    WordLengthOfWord(w, " " + rest);
    assert s[..|w|] == w;
    assert s[|w|..] == " " + rest;
    SplitWhitespaceSkipsSpace(rest);
  }

  /** Splitting words joined by spaces gives the words back. */
  lemma {:induction false} SplitWhitespaceJoin(ws: seq<string>)
    requires forall i :: 0 <= i < |ws| ==> |ws[i]| > 0 && NoWhitespace(ws[i])
    ensures SplitWhitespace(JoinWords(ws)) == ws
    decreases |ws|
  {
    if |ws| > 0 {
      SplitWhitespaceFirstWord(ws);
      SplitWhitespaceJoin(ws[1..]);
      HeadAndTail(ws);
    }
  }

  lemma HeadAndTail<T>(s: seq<T>)
    requires |s| > 0
    ensures [s[0]] + s[1..] == s
  {
  }

  // ---------------------------------------------------------------------
  // Decimal digits
  // ---------------------------------------------------------------------

  function DigitChar(d: nat): (c: char)
    requires d < 10
    ensures IsAsciiDigit(c) && c as int - '0' as int == d
  {
    ('0' as int + d) as char
  }

  function DigitValue(c: char): (d: nat)
    requires IsAsciiDigit(c)
    ensures d < 10
  {
    c as int - '0' as int
  }

  /** The number a run of ASCII digits denotes (most significant first). */
  function DigitsValue(s: string): nat
    requires AllDigits(s)
  {
    if |s| == 0 then 0 else DigitsValue(s[..|s| - 1]) * 10 + DigitValue(s[|s| - 1])
  }

  /** A run of digits holds no other char. */
  lemma DigitsExclude(s: string, c: char)
    requires AllDigits(s) && !IsAsciiDigit(c)
    ensures c !in s
  {
    forall i | 0 <= i < |s|
      ensures s[i] != c
    {
      assert IsAsciiDigit(s[i]);
    }
  }

  function Pow10(k: nat): (p: nat)
    ensures p >= 1
  {
    if k == 0 then 1 else 10 * Pow10(k - 1)
  }

  /** Decimal text of `n` as `{}` prints a `u64`: no sign, no leading zero. */
  function NatToString(n: nat): (s: string)
    ensures |s| >= 1 && AllDigits(s)
    ensures |s| > 1 ==> s[0] != '0'
    decreases n
  {
    if n < 10 then [DigitChar(n)] else NatToString(n / 10) + [DigitChar(n % 10)]
  }

  /** `{}` on a signed integer. */
  function IntToString(i: int): string {
    if i < 0 then "-" + NatToString(-i) else NatToString(i)
  }

  /** `{:0width}` on an unsigned integer. */
  function ZeroPad(n: nat, width: nat): string {
    var s := NatToString(n);
    if |s| < width then Repeat('0', width - |s|) + s else s
  }

  /** Decimal printing is read back exactly by `DigitsValue`. */
  lemma {:induction false} NatToStringValue(n: nat)
    ensures DigitsValue(NatToString(n)) == n
    decreases n
  {
    if n >= 10 {
      NatToStringValue(n / 10);
      var s := NatToString(n);
      assert s[..|s| - 1] == NatToString(n / 10);
    }
  }

  /** The decimal text of a number below 10^k has at most k digits. */
  lemma {:induction false} NatToStringLength(n: nat, k: nat)
    requires k >= 1 && n < Pow10(k)
    ensures |NatToString(n)| <= k
    decreases n
  {
    if n >= 10 {
      if k == 1 {
        assert false;
      }
      assert Pow10(k) == 10 * Pow10(k - 1);
      assert n / 10 < Pow10(k - 1);
      NatToStringLength(n / 10, k - 1);
    }
  }

  /** Leading zeros do not change the value of a digit run. */
  lemma {:induction false} LeadingZeros(k: nat, s: string)
    requires AllDigits(s)
    ensures AllDigits(Repeat('0', k) + s)
    ensures DigitsValue(Repeat('0', k) + s) == DigitsValue(s)
    decreases k, |s|
  {
    var z := Repeat('0', k);
    if k > 0 {
      if |s| == 0 {
        assert z + s == [] + ['0'] + Repeat('0', k - 1);
        LeadingZeros(k - 1, s);
        assert (z + s)[..|z + s| - 1] == Repeat('0', k - 1) + s;
      } else {
        LeadingZeros(k, s[..|s| - 1]);
        assert (z + s)[..|z + s| - 1] == z + s[..|s| - 1];
      }
    } else {
      assert z + s == s;
    }
  }

  /** `{:0width}` reads back as the number it printed. */
  lemma ZeroPadValue(n: nat, width: nat)
    ensures AllDigits(ZeroPad(n, width)) && |ZeroPad(n, width)| >= 1
    ensures DigitsValue(ZeroPad(n, width)) == n
    ensures 1 <= width && n < Pow10(width) ==> |ZeroPad(n, width)| == width
  {
    var s := NatToString(n);
    NatToStringValue(n);
    if |s| < width {
      LeadingZeros(width - |s|, s);
    }
    if n < Pow10(width) && width >= 1 {
      NatToStringLength(n, width);
    }
  }

  /** A non-empty run of ASCII digits, as a number. */
  function ParseDigits(s: string): (r: Option<nat>)
    ensures r.Some? <==> |s| > 0 && AllDigits(s)
  {
    if |s| > 0 && AllDigits(s) then Some(DigitsValue(s)) else None
  }

  const U64_LIMIT: nat := 0x1_0000_0000_0000_0000

  /**
   * `str::parse::<u64>`: an optional `+`, then at least one ASCII digit,
   * denoting a value below 2^64.
   */
  function ParseU64(s: string): (r: Option<nat>)
    ensures r.Some? ==> r.value < U64_LIMIT
    ensures r.Some? ==> (AllDigits(s) && ParseDigits(s) == r)
                        || (|s| > 0 && s[0] == '+' && ParseDigits(s[1..]) == r)
  {
    var digits := if |s| > 0 && s[0] == '+' then s[1..] else s;
    match ParseDigits(digits)
    case Some(v) => if v < U64_LIMIT then Some(v) else None
    case None => None
  }

  /** Every decimal printing of a `u64` parses back to it. */
  lemma ParseU64OfPrinted(n: nat)
    requires n < U64_LIMIT
    ensures ParseU64(NatToString(n)) == Some(n)
  {
    NatToStringValue(n);
  }
}
