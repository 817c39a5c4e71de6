/**
 * The Python built-ins on `str` that the plugin's core relies on:
 * `str.split()` (no argument), `str.split(sep)` with a one-character
 * separator, and `int(str)` for base-10 text.
 */
module PyStr {
  import opened Wrappers

  // ---------------------------------------------------------------------
  // str.split() with no argument: runs of whitespace separate words and
  // leading or trailing whitespace yields no empty word.
  // ---------------------------------------------------------------------

  /** The characters for which Python's `str.isspace()` holds. */
  predicate IsSpace(c: char)
  {
    || c == ' ' || c == '\t' || c == '\n' || c == '\r'
    || c == '\U{0B}' || c == '\U{0C}'
    || ('\U{1C}' <= c <= '\U{1F}')
    || c == '\U{85}' || c == '\U{A0}' || c == '\U{1680}'
    || ('\U{2000}' <= c <= '\U{200A}')
    || c == '\U{2028}' || c == '\U{2029}' || c == '\U{202F}' || c == '\U{205F}'
    || c == '\U{3000}'
  }

  predicate NoSpace(w: string)
  {
    forall i :: 0 <= i < |w| ==> !IsSpace(w[i])
  }

  /** Length of the word at the front of `s`. */
  function WordEnd(s: string): (n: nat)
    ensures n <= |s|
    ensures NoSpace(s[..n])
    ensures n < |s| ==> IsSpace(s[n])
  {
    if |s| == 0 || IsSpace(s[0]) then 0
    else
      var n := 1 + WordEnd(s[1..]);
      assert forall i :: 1 <= i < n ==> s[..n][i] == s[1..][..n - 1][i - 1];
      n
  }

  /** `s.split()` */
  function SplitWords(s: string): (words: seq<string>)
    ensures forall w <- words :: |w| > 0 && NoSpace(w)
    decreases |s|
  {
    if |s| == 0 then []
    else if IsSpace(s[0]) then SplitWords(s[1..])
    else
      var n := WordEnd(s);
      [s[..n]] + SplitWords(s[n..])
  }

  lemma {:induction false} WordEndOfWord(w: string, rest: string)
    requires NoSpace(w)
    requires |rest| == 0 || IsSpace(rest[0])
    ensures WordEnd(w + rest) == |w|
    decreases |w|
  {
    if |w| > 0 {
      assert (w + rest)[1..] == w[1..] + rest;
      WordEndOfWord(w[1..], rest);
    } else {
      assert w + rest == rest;
    }
  }

  predicate AllSpace(g: string)
  {
    forall i :: 0 <= i < |g| ==> IsSpace(g[i])
  }

  /** `words[0] + gaps[0] + words[1] + gaps[1] + ...`: each word followed by its gap. */
  function Spaced(words: seq<string>, gaps: seq<string>): string
    requires |gaps| == |words|
  {
    if |words| == 0 then ""
    else words[0] + gaps[0] + Spaced(words[1..], gaps[1..])
  }

  /** Whitespace in front of the text makes no word. */
  lemma {:induction false} SplitSkipsSpace(lead: string, rest: string)
    requires AllSpace(lead)
    ensures SplitWords(lead + rest) == SplitWords(rest)
    decreases |lead|
  {
    if |lead| > 0 {
      assert (lead + rest)[1..] == lead[1..] + rest;
      SplitSkipsSpace(lead[1..], rest);
    } else {
      assert lead + rest == rest;
    }
  }

  /**
   * Splitting any text made of words and whitespace gives the words back:
   * whitespace of any kind and length may lead, separate and trail them.
   */
  lemma {:induction false} SplitSpacedWords(lead: string, words: seq<string>, gaps: seq<string>)
    requires AllSpace(lead)
    requires forall w <- words :: |w| > 0 && NoSpace(w)
    requires |gaps| == |words|
    requires forall k :: 0 <= k < |gaps| ==> AllSpace(gaps[k])
    requires forall k :: 0 <= k < |gaps| - 1 ==> |gaps[k]| > 0
    ensures SplitWords(lead + Spaced(words, gaps)) == words
    decreases |words|
  {
    var s := Spaced(words, gaps);
    SplitSkipsSpace(lead, s);
    if |words| > 0 {
      var w, g, tail := words[0], gaps[0], Spaced(words[1..], gaps[1..]);
      assert s == w + (g + tail);
      if |g| == 0 {
        assert |words| == 1;
        assert tail == "";
      }
      WordEndOfWord(w, g + tail);
      assert s[0] == w[0];
      assert s[..|w|] == w;
      assert s[|w|..] == g + tail;
      assert forall v <- words[1..] :: v in words;
      SplitSpacedWords(g, words[1..], gaps[1..]);
    } else {
      assert lead + s == lead;
      assert SplitWords(s) == [];
    }
  }

  // ---------------------------------------------------------------------
  // str.split(sep) with a one-character separator: every separator cuts,
  // so n separators always give n + 1 pieces, empty ones included.
  // ---------------------------------------------------------------------

  /** `s.split(sep)` */
  function SplitOn(s: string, sep: char): (parts: seq<string>)
    ensures |parts| >= 1
    ensures forall p <- parts :: sep !in p
    decreases |s|
  {
    if |s| == 0 then [""]
    else
      var rest := SplitOn(s[1..], sep);
      if s[0] == sep then [""] + rest
      else [[s[0]] + rest[0]] + rest[1..]
  }

  /** `sep.join(parts)` */
  function JoinOn(parts: seq<string>, sep: char): string
    requires |parts| >= 1
  {
    if |parts| == 1 then parts[0]
    else parts[0] + [sep] + JoinOn(parts[1..], sep)
  }

  /** Joining the pieces of a split restores the string. */
  lemma {:induction false} JoinSplit(s: string, sep: char)
    ensures JoinOn(SplitOn(s, sep), sep) == s
    decreases |s|
  {
    if |s| > 0 {
      var rest := SplitOn(s[1..], sep);
      JoinSplit(s[1..], sep);
      if s[0] == sep {
        assert SplitOn(s, sep)[1..] == rest;
      } else {
        var parts := SplitOn(s, sep);
        assert parts[0] == [s[0]] + rest[0];
        assert parts[1..] == rest[1..];
        if |rest| == 1 {
          assert s == [s[0]] + s[1..];
        } else {
          assert JoinOn(rest, sep) == rest[0] + [sep] + JoinOn(rest[1..], sep);
          assert s == [s[0]] + s[1..];
        }
      }
    }
  }

  /** A string without the separator is one piece. */
  lemma {:induction false} SplitOnWithout(s: string, sep: char)
    requires sep !in s
    ensures SplitOn(s, sep) == [s]
    decreases |s|
  {
    if |s| > 0 {
      assert sep !in s[1..] by { assert forall c <- s[1..] :: c in s; }
      SplitOnWithout(s[1..], sep);
      assert s == [s[0]] + s[1..];
    }
  }

  /** The pieces of a split of `a + sep + b`, where `b` holds no separator. */
  lemma {:induction false} SplitOnLast(a: string, sep: char, b: string)
    requires sep !in b
    ensures SplitOn(a + [sep] + b, sep) == SplitOn(a, sep) + [b]
    decreases |a|
  {
    var s := a + [sep] + b;
    if |a| == 0 {
      assert s[1..] == b;
      SplitOnWithout(b, sep);
    } else {
      assert s[1..] == a[1..] + [sep] + b;
      SplitOnLast(a[1..], sep, b);
    }
  }

  // ---------------------------------------------------------------------
  // int(s) on base-10 text: an optional sign, then digits where a single
  // underscore may stand between two digits.
  // ---------------------------------------------------------------------

  predicate IsDigit(c: char) { '0' <= c <= '9' }

  function DigitValue(c: char): nat
    requires IsDigit(c)
  {
    (c as int) - ('0' as int)
  }

  function DigitChar(d: nat): (c: char)
    requires d < 10
    ensures IsDigit(c) && DigitValue(c) == d
  {
    (('0' as int) + d) as char
  }

  /** `s[i]` is a digit, or an underscore with a digit right after it. */
  predicate DigitOrJoiner(s: string, i: nat)
    requires i < |s|
  {
    IsDigit(s[i]) || (s[i] == '_' && i + 1 < |s| && IsDigit(s[i + 1]))
  }

  /** The digits-and-underscores form `int()` accepts after the sign. */
  predicate DecimalBody(s: string)
  {
    && |s| > 0
    && IsDigit(s[0])
    && forall i :: 0 <= i < |s| ==> DigitOrJoiner(s, i)
  }

  /** The value of the digits of `s`, underscores skipped. */
  function DecimalValue(s: string): nat
  {
    if |s| == 0 then 0
    else
      var c := s[|s| - 1];
      if IsDigit(c) then DecimalValue(s[..|s| - 1]) * 10 + DigitValue(c)
      else DecimalValue(s[..|s| - 1])
  }

  /** The number of digits of `s`; signs and underscores do not count. */
  function DigitCount(s: string): nat
  {
    if |s| == 0 then 0
    else DigitCount(s[..|s| - 1]) + (if IsDigit(s[|s| - 1]) then 1 else 0)
  }

  /** CPython's default `sys.int_max_str_digits`: `int()` refuses text with more digits. */
  const MaxStrDigits := 4300

  /** Where the digits start: after a leading sign, if there is one. */
  function BodyStart(s: string): nat
  {
    if |s| > 0 && (s[0] == '+' || s[0] == '-') then 1 else 0
  }

  /** `int(s)` for a string without surrounding whitespace: None where Python raises ValueError. */
  function ParseInt(s: string): (r: Option<int>)
    ensures r.Some? ==> BodyStart(s) < |s| && IsDigit(s[BodyStart(s)]) && IsDigit(s[|s| - 1])
    ensures r.Some? ==> forall i :: BodyStart(s) <= i < |s| ==> DigitOrJoiner(s, i)
    ensures r.Some? ==> DigitCount(s) <= MaxStrDigits
    ensures r.Some? && r.value < 0 ==> s[0] == '-'
    ensures AllDigits(s) && DigitCount(s) <= MaxStrDigits ==> r == Some(DecimalValue(s))
  {
    if |s| > 0 && (s[0] == '+' || s[0] == '-') then
      var body := s[1..];
      if DecimalBody(body) && DigitCount(body) <= MaxStrDigits then
        var v: int := DecimalValue(body);
        SignNotCounted(s);
        DecimalBodyShape(s, 1);
        Some(if s[0] == '-' then -v else v)
      else None
    else if DecimalBody(s) && DigitCount(s) <= MaxStrDigits then
      assert s[0..] == s;
      DecimalBodyShape(s, 0);
      Some(DecimalValue(s))
    else
      None
  }

  /** `s` is a non-empty run of decimal digits. */
  predicate AllDigits(s: string)
  {
    |s| > 0 && forall i :: 0 <= i < |s| ==> IsDigit(s[i])
  }

  lemma DecimalBodyShape(s: string, b: nat)
    requires b < |s| && DecimalBody(s[b..])
    ensures IsDigit(s[b]) && IsDigit(s[|s| - 1])
    ensures forall i :: b <= i < |s| ==> DigitOrJoiner(s, i)
  {
    var body := s[b..];
    forall i | b <= i < |s|
      ensures DigitOrJoiner(s, i)
    {
      assert DigitOrJoiner(body, i - b);
      assert s[i] == body[i - b];
      if i + 1 < |s| {
        assert s[i + 1] == body[i + 1 - b];
      }
    }
    assert DigitOrJoiner(body, |body| - 1);
    assert s[|s| - 1] == body[|body| - 1];
  }

  lemma {:induction false} SignNotCounted(s: string)
    requires |s| > 0 && !IsDigit(s[0])
    ensures DigitCount(s) == DigitCount(s[1..])
    decreases |s|
  {
    if |s| > 1 {
      assert s[..|s| - 1][1..] == s[1..][..|s| - 2];
      SignNotCounted(s[..|s| - 1]);
    }
  }

  lemma {:induction false} AllDigitsCounted(s: string)
    requires forall i :: 0 <= i < |s| ==> IsDigit(s[i])
    ensures DigitCount(s) == |s|
    decreases |s|
  {
    if |s| > 0 {
      AllDigitsCounted(s[..|s| - 1]);
    }
  }

  /** The decimal digits of `n`, most significant first, no leading zero. */
  function NatDigits(n: nat): (s: string)
    ensures |s| > 0
    ensures forall i :: 0 <= i < |s| ==> IsDigit(s[i])
  {
    if n < 10 then [DigitChar(n)] else NatDigits(n / 10) + [DigitChar(n % 10)]
  }

  /** `str(n)` */
  function ShowInt(n: int): string
  {
    if n < 0 then "-" + NatDigits(-n) else NatDigits(n)
  }

  lemma {:induction false} DecimalValueOfDigits(n: nat)
    ensures DecimalValue(NatDigits(n)) == n
  {
    if n >= 10 {
      var s := NatDigits(n);
      assert s[..|s| - 1] == NatDigits(n / 10);
      DecimalValueOfDigits(n / 10);
    }
  }

  lemma DigitsAreDecimalBody(s: string)
    requires |s| > 0
    requires forall i :: 0 <= i < |s| ==> IsDigit(s[i])
    ensures DecimalBody(s)
  {
  }

  /**
   * `int(str(n)) == n`, for every `n` whose `str` CPython produces: past
   * `MaxStrDigits` digits `str(n)` raises ValueError itself.
   */
  lemma ParseShowInt(n: int)
    requires |NatDigits(if n < 0 then -n else n)| <= MaxStrDigits
    ensures ParseInt(ShowInt(n)) == Some(n)
  {
    var digits := NatDigits(if n < 0 then -n else n);
    DigitsAreDecimalBody(digits);
    AllDigitsCounted(digits);
    DecimalValueOfDigits(if n < 0 then -n else n);
    assert IsDigit(digits[0]);
    if n < 0 {
      var s := ShowInt(n);
      assert s[0] == '-';
      assert s[1..] == digits;
    } else {
      assert ShowInt(n) == digits;
    }
  }
}
