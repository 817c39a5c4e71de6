/**
 * Luminance quantization and row assembly: every grey value 0..255 picks
 * one character of the ramp through `step = 256 // len(charset)`, and the
 * characters are assembled into one text, a line per grid row, each line
 * ended by "\n".
 */
module Quantize {
  import opened Wrappers
  import PyStr
  import opened Arith

  /**
   * The exceptions the conversion raises: the ValueError of resizing to a
   * size with a zero or negative side, and ZeroDivisionError.
   */
  datatype ConvertError = ResizeRejected | ZeroDivision

  predicate IsGrey(v: int) { 0 <= v <= 255 }

  /** A ramp whose step `256 // n` is positive. */
  predicate UsableRamp(charset: string) { 1 <= |charset| <= 256 }

  /** Ramp index of a grey value: `min(int(gray / step), n - 1)`. */
  function CharIndex(gray: int, n: nat): (k: nat)
    requires IsGrey(gray)
    requires 1 <= n <= 256
    ensures k < n
    ensures gray == 0 ==> k == 0
  {
    Min(gray / (256 / n), n - 1)
  }

  /** The character a grey value becomes. */
  function Glyph(gray: int, charset: string): char
    requires IsGrey(gray)
    requires UsableRamp(charset)
  {
    charset[CharIndex(gray, |charset|)]
  }

  /** Every grey value of a row is in 0..255, and a non-empty row needs a usable ramp. */
  predicate RowOk(row: seq<int>, charset: string)
  {
    && (forall j :: 0 <= j < |row| ==> IsGrey(row[j]))
    && (|row| == 0 || UsableRamp(charset))
  }

  /** The grey grid `height` rows of `width` values in 0..255, as the resampled image gives it. */
  predicate IsGrid(gray: seq<seq<int>>, width: nat, height: nat)
  {
    && |gray| == height
    && forall i :: 0 <= i < height ==> |gray[i]| == width && forall j :: 0 <= j < width ==> IsGrey(gray[i][j])
  }

  /** The conversion gets past `256 // n` and every `gray / step`. */
  predicate Quantizable(charset: string, width: nat, height: nat)
  {
    1 <= |charset| && (|charset| <= 256 || width == 0 || height == 0)
  }

  /** Every row can be quantized. */
  predicate GridOk(gray: seq<seq<int>>, charset: string)
  {
    forall i :: 0 <= i < |gray| ==> RowOk(gray[i], charset)
  }

  /** The characters of one grid row. */
  function RowText(row: seq<int>, charset: string): (line: string)
    requires RowOk(row, charset)
    ensures |line| == |row|
    ensures forall j :: 0 <= j < |row| ==> line[j] == Glyph(row[j], charset)
  {
    if |row| == 0 then []
    else RowText(row[..|row| - 1], charset) + [Glyph(row[|row| - 1], charset)]
  }

  /** The lines of the art, one per grid row. */
  function Rows(gray: seq<seq<int>>, charset: string): (lines: seq<string>)
    requires GridOk(gray, charset)
    ensures |lines| == |gray|
    ensures forall i :: 0 <= i < |gray| ==> lines[i] == RowText(gray[i], charset)
  {
    if |gray| == 0 then []
    else Rows(gray[..|gray| - 1], charset) + [RowText(gray[|gray| - 1], charset)]
  }

  /** Each line followed by "\n", concatenated. */
  function Terminated(lines: seq<string>): string
  {
    if |lines| == 0 then ""
    else Terminated(lines[..|lines| - 1]) + lines[|lines| - 1] + "\n"
  }

  /** The `result` string the converter assembles. */
  function ArtText(gray: seq<seq<int>>, charset: string): string
    requires GridOk(gray, charset)
  {
    Terminated(Rows(gray, charset))
  }

  lemma StepZeroIff(n: nat)
    requires n >= 1
    ensures 256 / n == 0 <==> n > 256
  {
    if n <= 256 {
      StepPositive(n);
    }
  }

  lemma StepPositive(n: nat)
    requires 1 <= n <= 256
    ensures 256 / n >= 1
  {
    assert 256 == n * (256 / n) + 256 % n;
  }

  lemma GridOkPrefix(gray: seq<seq<int>>, width: nat, height: nat, charset: string, i: nat)
    requires IsGrid(gray, width, height)
    requires i <= height
    requires i == 0 || UsableRamp(charset) || width == 0
    ensures GridOk(gray[..i], charset)
  {
  }

  lemma RowTextStep(row: seq<int>, j: nat, charset: string)
    requires forall k :: 0 <= k < |row| ==> IsGrey(row[k])
    requires UsableRamp(charset) && j < |row|
    ensures RowOk(row[..j], charset) && RowOk(row[..j + 1], charset)
    ensures RowText(row[..j + 1], charset) == RowText(row[..j], charset) + [Glyph(row[j], charset)]
  {
    assert row[..j + 1][..j] == row[..j];
  }

  /** One more quantized row extends the art text by that row's line. */
  lemma ArtTextStep(gray: seq<seq<int>>, width: nat, height: nat, charset: string, i: nat)
    requires IsGrid(gray, width, height) && i < height
    requires GridOk(gray[..i], charset) && RowOk(gray[i], charset)
    ensures GridOk(gray[..i + 1], charset)
    ensures ArtText(gray[..i + 1], charset) == ArtText(gray[..i], charset) + RowText(gray[i], charset) + "\n"
  {
    var next := gray[..i + 1];
    assert next[..i] == gray[..i];
    assert GridOk(next, charset) by {
      forall k | 0 <= k < |next|
        ensures RowOk(next[k], charset)
      {
        if k < i {
          assert next[k] == gray[..i][k];
        }
      }
    }
    var lines := Rows(next, charset);
    assert lines[..i] == Rows(gray[..i], charset);
    assert lines[i] == RowText(gray[i], charset);
  }

  /**
   * The inner loop over one row: `gray / step` raises at the row's first
   * cell when the step is 0; otherwise each cell adds its ramp character.
   */
  method QuantizeRow(row: seq<int>, charset: string, step: nat) returns (r: Result<string, ConvertError>)
    requires 1 <= |charset| && step == 256 / |charset|
    requires forall j :: 0 <= j < |row| ==> IsGrey(row[j])
    ensures r.Err? <==> |row| > 0 && |charset| > 256
    ensures r.Err? ==> r.error == ZeroDivision
    ensures r.Ok? ==> RowOk(row, charset) && r.value == RowText(row, charset)
  {
    StepZeroIff(|charset|);
    var line := "";
    var j := 0;
    while j < |row|
      invariant 0 <= j <= |row|
      invariant step == 0 ==> j == 0
      invariant RowOk(row[..j], charset)
      invariant line == RowText(row[..j], charset)
    {
      var grayValue := row[j];
      if step == 0 {
        return Err(ZeroDivision);
      }
      var charIndex := Min(grayValue / step, |charset| - 1);
      RowTextStep(row, j, charset);
      line := line + [charset[charIndex]];
      j := j + 1;
    }
    assert row[..j] == row;
    return Ok(line);
  }

  /**
   * The nested loop that builds `result`: `256 // len(charset)` raises for an
   * empty ramp, `gray / step` raises at the first cell when the ramp is longer
   * than 256, and otherwise the text is the art.
   */
  method BuildText(gray: seq<seq<int>>, width: nat, height: nat, charset: string)
    returns (r: Result<string, ConvertError>)
    requires IsGrid(gray, width, height)
    ensures r.Err? <==> !Quantizable(charset, width, height)
    ensures r.Err? ==> r.error == ZeroDivision
    ensures r.Ok? ==> GridOk(gray, charset) && r.value == ArtText(gray, charset)
  {
    if |charset| == 0 {
      return Err(ZeroDivision);
    }
    var step := 256 / |charset|;
    var result := "";
    var i := 0;
    while i < height
      invariant 0 <= i <= height
      invariant GridOk(gray[..i], charset)
      invariant result == ArtText(gray[..i], charset)
      invariant i > 0 ==> Quantizable(charset, width, height)
    {
      var line := QuantizeRow(gray[i], charset, step);
      if line.Err? {
        return Err(line.error);
      }
      ArtTextStep(gray, width, height, charset, i);
      result := result + line.value + "\n";
      i := i + 1;
    }
    assert gray[..i] == gray;
    return Ok(result);
  }

  // ---------------------------------------------------------------------
  // Properties of the quantization
  // ---------------------------------------------------------------------


  /**
   * The buckets: index k takes the grey values from k * step up to, but not
   * including, (k + 1) * step, and the last index also takes every value
   * above, so it absorbs the remainder when 256 is not a multiple of n.
   */
  lemma CharIndexBuckets(gray: int, n: nat)
    requires IsGrey(gray)
    requires 1 <= n <= 256
    ensures CharIndex(gray, n) * (256 / n) <= gray
    ensures CharIndex(gray, n) < n - 1 ==> gray < (CharIndex(gray, n) + 1) * (256 / n)
    ensures gray >= (n - 1) * (256 / n) ==> CharIndex(gray, n) == n - 1
  {
    var step := 256 / n;
    StepPositive(n);
    var q := gray / step;
    DivFloor(gray, step);
    var k := CharIndex(gray, n);
    MulLe(k, q, step);
    if k < n - 1 {
      assert k == q;
      assert (k + 1) * step == q * step + step;
      MulLe(k + 1, n - 1, step);
    }
  }

  /** A lighter grey never picks an earlier ramp character. */
  lemma CharIndexMonotone(a: int, b: int, n: nat)
    requires IsGrey(a) && IsGrey(b) && a <= b
    requires 1 <= n <= 256
    ensures CharIndex(a, n) <= CharIndex(b, n)
  {
    StepPositive(n);
    DivMonotone(a, b, 256 / n);
  }

  /** Every character of the art is a ramp character or a line end. */
  lemma {:induction false} ArtTextUsesRamp(gray: seq<seq<int>>, charset: string)
    requires GridOk(gray, charset)
    ensures forall c <- ArtText(gray, charset) :: c == '\n' || c in charset
    decreases |gray|
  {
    if |gray| > 0 {
      var prefix := gray[..|gray| - 1];
      ArtTextUsesRamp(prefix, charset);
      assert Rows(gray, charset)[..|gray| - 1] == Rows(prefix, charset);
      var line := RowText(gray[|gray| - 1], charset);
      assert forall c <- line :: c in charset by {
        forall j | 0 <= j < |line| ensures line[j] in charset {
          assert line[j] == charset[CharIndex(gray[|gray| - 1][j], |charset|)];
        }
      }
    }
  }

  /** A one-character ramp turns every cell into that character. */
  lemma SingleCharacterRamp(gray: seq<seq<int>>, c: char)
    requires forall i :: 0 <= i < |gray| ==> RowOk(gray[i], [c])
    ensures forall i, j :: 0 <= i < |gray| && 0 <= j < |gray[i]| ==> Rows(gray, [c])[i][j] == c
    ensures forall d <- ArtText(gray, [c]) :: d == '\n' || d == c
  {
    ArtTextUsesRamp(gray, [c]);
  }

  lemma {:induction false} TerminatedLength(lines: seq<string>, width: nat)
    requires forall i :: 0 <= i < |lines| ==> |lines[i]| == width
    ensures |Terminated(lines)| == |lines| * (width + 1)
    decreases |lines|
  {
    if |lines| > 0 {
      var n := |lines|;
      TerminatedLength(lines[..n - 1], width);
      assert (n - 1) * (width + 1) + (width + 1) == n * (width + 1);
    }
  }

  /** The art text is `height` lines of `width` characters, each with its "\n". */
  lemma ArtTextLength(gray: seq<seq<int>>, width: nat, height: nat, charset: string)
    requires IsGrid(gray, width, height)
    requires Quantizable(charset, width, height)
    ensures GridOk(gray, charset)
    ensures |ArtText(gray, charset)| == height * (width + 1)
  {
    GridOkPrefix(gray, width, height, charset, height);
    assert gray[..height] == gray;
    TerminatedLength(Rows(gray, charset), width);
  }

  /** Splitting each line followed by "\n" on "\n" gives the lines back, then the empty tail. */
  lemma {:induction false} SplitTerminated(lines: seq<string>, tail: string)
    requires forall l <- lines :: '\n' !in l
    requires '\n' !in tail
    ensures PyStr.SplitOn(Terminated(lines) + tail, '\n') == lines + [tail]
    decreases |lines|
  {
    if |lines| == 0 {
      assert Terminated(lines) + tail == tail;
      PyStr.SplitOnWithout(tail, '\n');
    } else {
      var init, last := lines[..|lines| - 1], lines[|lines| - 1];
      assert Terminated(lines) + tail == (Terminated(init) + last) + ['\n'] + tail;
      PyStr.SplitOnLast(Terminated(init) + last, '\n', tail);
      SplitTerminated(init, last);
      assert init + [last] == lines;
    }
  }

  /**
   * `result.split("\n")` yields exactly the grid rows, each `width`
   * characters long, and one empty piece after the last "\n".
   */
  lemma ArtTextLines(gray: seq<seq<int>>, width: nat, height: nat, charset: string)
    requires IsGrid(gray, width, height)
    requires Quantizable(charset, width, height)
    requires '\n' !in charset
    ensures PyStr.SplitOn(ArtText(gray, charset), '\n') == Rows(gray, charset) + [""]
    ensures forall i :: 0 <= i < height ==> |Rows(gray, charset)[i]| == width
  {
    var lines := Rows(gray, charset);
    forall i | 0 <= i < |lines| ensures '\n' !in lines[i] {
      forall j | 0 <= j < |lines[i]| ensures lines[i][j] in charset {
        assert lines[i][j] == charset[CharIndex(gray[i][j], |charset|)];
      }
    }
    SplitTerminated(lines, "");
    assert Terminated(lines) + "" == Terminated(lines);
  }
}
