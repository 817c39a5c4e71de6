/**
 * The conversion itself: size the grid, build the art text, allocate a
 * canvas of grid size times glyph size, and draw every non-empty line of
 * `result.split("\n")` at x = 0, y = line index * glyph height.
 */
module Render {
  import opened Wrappers
  import opened Sizing
  import opened Quantize
  import PyStr
  import opened Arith

  /** One `draw.text((x, y), line, ...)` call. */
  datatype TextDraw = TextDraw(x: int, y: int, line: string)

  /** The canvas `Image.new("RGB", (width, height), "white")` and the text drawn on it, in order. */
  datatype Rendering = Rendering(width: int, height: int, draws: seq<TextDraw>)

  /** The draws of `for i, line in enumerate(lines): if line: draw.text((0, i * char_height), line)`. */
  function Placements(lines: seq<string>, charHeight: int): seq<TextDraw>
  {
    if |lines| == 0 then []
    else
      var i := |lines| - 1;
      var before := Placements(lines[..i], charHeight);
      if lines[i] != "" then before + [TextDraw(0, i * charHeight, lines[i])] else before
  }

  /** The drawing loop over the split lines. */
  method DrawLines(lines: seq<string>, charHeight: int) returns (draws: seq<TextDraw>)
    ensures draws == Placements(lines, charHeight)
  {
    draws := [];
    var i := 0;
    while i < |lines|
      invariant 0 <= i <= |lines|
      invariant draws == Placements(lines[..i], charHeight)
    {
      var line := lines[i];
      assert lines[..i + 1][..i] == lines[..i];
      if line != "" {
        draws := draws + [TextDraw(0, i * charHeight, line)];
      }
      i := i + 1;
    }
    assert lines[..i] == lines;
  }

  /** With no empty line, line i is drawn at (0, i * charHeight), and nothing else is drawn. */
  lemma {:induction false} PlacementsOfFullLines(lines: seq<string>, charHeight: int)
    requires forall i :: 0 <= i < |lines| ==> lines[i] != ""
    ensures |Placements(lines, charHeight)| == |lines|
    ensures forall i :: 0 <= i < |lines| ==> Placements(lines, charHeight)[i] == TextDraw(0, i * charHeight, lines[i])
    decreases |lines|
  {
    if |lines| > 0 {
      PlacementsOfFullLines(lines[..|lines| - 1], charHeight);
    }
  }

  /**
   * Every draw starts at the left edge, lies within the canvas height, and
   * its line spans exactly the canvas width when each glyph is `charWidth`
   * wide.
   */
  ghost predicate InsideCanvas(art: Rendering, charWidth: nat, charHeight: nat)
  {
    forall d <- art.draws ::
      && d.x == 0
      && 0 <= d.y && d.y + charHeight <= art.height
      && |d.line| * charWidth == art.width
  }

  /** Lines of equal length, drawn one glyph height apart, fit a canvas of grid size times glyph size. */
  lemma RowsFitCanvas(rows: seq<string>, width: nat, charWidth: nat, charHeight: nat)
    requires forall i :: 0 <= i < |rows| ==> |rows[i]| == width
    requires width > 0
    ensures InsideCanvas(Rendering(width * charWidth, |rows| * charHeight, Placements(rows + [""], charHeight)),
                         charWidth, charHeight)
  {
    var lines := rows + [""];
    assert lines[..|rows|] == rows;
    PlacementsOfFullLines(rows, charHeight);
    var draws := Placements(lines, charHeight);
    forall i | 0 <= i < |draws|
      ensures 0 <= draws[i].y && draws[i].y + charHeight <= |rows| * charHeight
    {
      MulLe(i + 1, |rows|, charHeight);
    }
  }

  /** Empty lines draw nothing. */
  lemma {:induction false} PlacementsOfEmptyLines(lines: seq<string>, charHeight: int)
    requires forall i :: 0 <= i < |lines| ==> lines[i] == ""
    ensures Placements(lines, charHeight) == []
    decreases |lines|
  {
    if |lines| > 0 {
      PlacementsOfEmptyLines(lines[..|lines| - 1], charHeight);
    }
  }

  /**
   * `_sync_convert_image_to_ascii` (mode Ascii) and its twin
   * `_sync_convert_image_to_ascii_chinese` (mode Chinese), given the grid
   * the resampling produced and the measured glyph size. The resampling
   * refuses a target size with a side below 1 before anything is quantized.
   */
  method Convert(mode: Mode, width: Option<int>, charset: string,
                 imageWidth: nat, imageHeight: nat, gray: seq<seq<int>>,
                 charWidth: nat, charHeight: nat)
    returns (r: Result<Rendering, ConvertError>)
    requires imageWidth > 0
    requires GridWidth(mode, width, imageWidth) >= 0
    requires IsGrid(gray, GridWidth(mode, width, imageWidth),
                    GridHeight(imageWidth, imageHeight, GridWidth(mode, width, imageWidth)))
    ensures var w := GridWidth(mode, width, imageWidth);
            var h := GridHeight(imageWidth, imageHeight, w);
            && (r.Err? <==> w < 1 || h < 1 || !Quantizable(charset, w, h))
            && (r.Err? ==> r.error == if w < 1 || h < 1 then ResizeRejected else ZeroDivision)
            && (r.Ok? ==> r.value.width == w * charWidth && r.value.height == h * charHeight)
            && (r.Ok? && '\n' !in charset ==>
                  && |r.value.draws| == h
                  && (forall i :: 0 <= i < h ==>
                        r.value.draws[i] == TextDraw(0, i * charHeight, RowText(gray[i], charset)))
                  && InsideCanvas(r.value, charWidth, charHeight))
  {
    var newWidth: nat := GridWidth(mode, width, imageWidth);
    var newHeight := GridHeight(imageWidth, imageHeight, newWidth);
    if newWidth < 1 || newHeight < 1 {
      return Err(ResizeRejected);
    }
    var text := BuildText(gray, newWidth, newHeight, charset);
    if text.Err? {
      return Err(text.error);
    }
    var imgWidth := newWidth * charWidth;
    var imgHeight := newHeight * charHeight;
    var lines := PyStr.SplitOn(text.value, '\n');
    var draws := DrawLines(lines, charHeight);
    ArtDraws(gray, newWidth, newHeight, charset, charWidth, charHeight);
    return Ok(Rendering(imgWidth, imgHeight, draws));
  }

  /** What the drawing loop does with the art text of a grid. */
  lemma ArtDraws(gray: seq<seq<int>>, width: nat, height: nat, charset: string, charWidth: nat, charHeight: nat)
    requires IsGrid(gray, width, height)
    requires Quantizable(charset, width, height)
    ensures GridOk(gray, charset)
    ensures var draws := Placements(PyStr.SplitOn(ArtText(gray, charset), '\n'), charHeight);
            && (width == 0 ==> draws == [])
            && (width > 0 && '\n' !in charset ==>
                  && |draws| == height
                  && (forall i :: 0 <= i < height ==> draws[i] == TextDraw(0, i * charHeight, RowText(gray[i], charset)))
                  && InsideCanvas(Rendering(width * charWidth, height * charHeight, draws), charWidth, charHeight))
  {
    GridOkPrefix(gray, width, height, charset, height);
    assert gray[..height] == gray;
    var rows := Rows(gray, charset);
    var text := ArtText(gray, charset);
    if width == 0 {
      EmptyRowsDrawNothing(rows, text);
      PlacementsOfEmptyLines(PyStr.SplitOn(text, '\n'), charHeight);
    } else if '\n' !in charset {
      ArtTextLines(gray, width, height, charset);
      var lines := rows + [""];
      assert lines[..|rows|] == rows;
      PlacementsOfFullLines(rows, charHeight);
      RowsFitCanvas(rows, width, charWidth, charHeight);
    }
  }

  /** A text made of "\n" alone splits into empty pieces only. */
  lemma EmptyRowsDrawNothing(rows: seq<string>, text: string)
    requires forall i :: 0 <= i < |rows| ==> rows[i] == ""
    requires text == Terminated(rows)
    ensures forall i :: 0 <= i < |PyStr.SplitOn(text, '\n')| ==> PyStr.SplitOn(text, '\n')[i] == ""
  {
    TerminatedEmptyIsNewlines(rows);
    SplitNewlinesOnly(text);
  }

  lemma {:induction false} TerminatedEmptyIsNewlines(rows: seq<string>)
    requires forall i :: 0 <= i < |rows| ==> rows[i] == ""
    ensures forall k :: 0 <= k < |Terminated(rows)| ==> Terminated(rows)[k] == '\n'
    decreases |rows|
  {
    if |rows| > 0 {
      TerminatedEmptyIsNewlines(rows[..|rows| - 1]);
      assert Terminated(rows) == Terminated(rows[..|rows| - 1]) + "\n";
    }
  }

  lemma {:induction false} SplitNewlinesOnly(text: string)
    requires forall k :: 0 <= k < |text| ==> text[k] == '\n'
    ensures forall i :: 0 <= i < |PyStr.SplitOn(text, '\n')| ==> PyStr.SplitOn(text, '\n')[i] == ""
    decreases |text|
  {
    if |text| > 0 {
      SplitNewlinesOnly(text[1..]);
    }
  }
}
