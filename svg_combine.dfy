/**
  The layout arithmetic of `SVGCombiner` (scripts/analysis/utilities/combine_plots.py):
  reading a panel's size from its `width`/`height` attributes, or from its `viewBox`
  when those do not give a positive size; placing the panels side by side; and the
  line-based fallback that extracts a panel's inner content.

  Python's `float(str)` is the parameter `parseFloat` (`None` where it raises), and
  `os.path.isfile` is the parameter `isFile`.
 */
module SvgCombine {
  import opened Wrappers
  import opened Text

  // ---------------------------------------------------------------- dimensions

  /** Lines 118-124: the unit suffixes in the order they are tried, and their pixel factors. */
  const Suffixes: seq<string> := ["px", "pt", "in", "cm", "mm"]
  const Factors: seq<real> := [1.0, 1.333, 96.0, 37.8, 3.78]

  /** `float(prefix) * factor`, where `float` may raise. */
  function Scaled(number: Option<real>, factor: real): Option<real> {
    match number
    case None => None
    case Some(x) => Some(x * factor)
  }

  /**
    Lines 126-133, from the `k`-th unit on: the first unit the string ends with decides;
    with none, the whole string is a number or 0.
   */
  function ParseWithUnits(s: string, k: nat, parseFloat: string -> Option<real>): Option<real>
    requires k <= |Suffixes|
    decreases |Suffixes| - k
  {
    if k == |Suffixes| then Some(parseFloat(s).GetOr(0.0))
    else if EndsWith(s, Suffixes[k]) then Scaled(parseFloat(s[..|s| - |Suffixes[k]|]), Factors[k])
    else ParseWithUnits(s, k + 1, parseFloat)
  }

  /** `_parse_dimension`: a dimension string in pixels; `None` where `float` raises. */
  function ParseDimension(dim: string, parseFloat: string -> Option<real>): Option<real> {
    if |dim| == 0 then Some(0.0)
    else ParseWithUnits(LowerStr(dim), 0, parseFloat)
  }

  lemma SameLengthSuffixes(s: string, a: string, b: string)
    requires |a| == |b| && EndsWith(s, a) && EndsWith(s, b)
    ensures a == b
  {
  }

  /** A string ending in unit `k` is its prefix's number times that unit's factor. */
  lemma UnitSuffix(dim: string, parseFloat: string -> Option<real>, k: nat)
    requires 0 < |dim| && k < |Suffixes| && EndsWith(LowerStr(dim), Suffixes[k])
    ensures var s := LowerStr(dim);
      ParseDimension(dim, parseFloat) == Scaled(parseFloat(s[..|s| - 2]), Factors[k])
  {
    var s := LowerStr(dim);
    var j := 0;
    while j < k
      invariant j <= k
      invariant ParseWithUnits(s, 0, parseFloat) == ParseWithUnits(s, j, parseFloat)
    {
      if EndsWith(s, Suffixes[j]) {
        SameLengthSuffixes(s, Suffixes[j], Suffixes[k]);
        assert false;
      }
      j := j + 1;
    }
  }

  /** A string with no unit suffix is read whole, and an unreadable one gives 0: it never raises. */
  lemma NoUnitSuffix(dim: string, parseFloat: string -> Option<real>)
    requires forall k | 0 <= k < |Suffixes| :: !EndsWith(LowerStr(dim), Suffixes[k])
    ensures ParseDimension(dim, parseFloat) == Some(if |dim| == 0 then 0.0 else parseFloat(LowerStr(dim)).GetOr(0.0))
  {
    var s := LowerStr(dim);
    var j := 0;
    while j < |Suffixes|
      invariant j <= |Suffixes|
      invariant ParseWithUnits(s, 0, parseFloat) == ParseWithUnits(s, j, parseFloat)
    {
      j := j + 1;
    }
  }

  /** Lines 84-90: `_, _, width, height = map(float, viewBox.split())`; any other count, or an unreadable number, raises. */
  function ViewBoxSize(viewBox: string, parseFloat: string -> Option<real>): (r: Option<(real, real)>)
    ensures r.Some? ==> |SplitWhitespace(viewBox)| == 4
  {
    var parts := SplitWhitespace(viewBox);
    if |parts| != 4 then None
    else if parseFloat(parts[0]).None? || parseFloat(parts[1]).None? then None
    else match (parseFloat(parts[2]), parseFloat(parts[3]))
      case (Some(w), Some(h)) => Some((w, h))
      case _ => None
  }

  /**
    `parse_svg_dimensions` on the root element's attributes: `width` and `height`
    (default "0") in pixels, or the `viewBox` size when either is not positive.
    `None` is the `ValueError` every failure becomes.
   */
  function SvgDimensions(width: Option<string>, height: Option<string>, viewBox: Option<string>,
                         parseFloat: string -> Option<real>): Option<(real, real)>
  {
    match (ParseDimension(width.GetOr("0"), parseFloat), ParseDimension(height.GetOr("0"), parseFloat))
    case (Some(w), Some(h)) =>
      if w <= 0.0 || h <= 0.0 then
        if viewBox.Some? && |viewBox.value| > 0 then ViewBoxSize(viewBox.value, parseFloat) else None
      else Some((w, h))
    case _ => None
  }

  /**
    The size comes from the attributes when both are positive, from the `viewBox`
    otherwise, and is an error when neither is available.
   */
  lemma DimensionSources(width: Option<string>, height: Option<string>, viewBox: Option<string>,
                         parseFloat: string -> Option<real>)
    ensures var w := ParseDimension(width.GetOr("0"), parseFloat);
            var h := ParseDimension(height.GetOr("0"), parseFloat);
            var r := SvgDimensions(width, height, viewBox, parseFloat);
      && (w.None? || h.None? ==> r.None?)
      && (w.Some? && h.Some? && w.value > 0.0 && h.value > 0.0 ==> r == Some((w.value, h.value)))
      && (w.Some? && h.Some? && (w.value <= 0.0 || h.value <= 0.0) ==>
            r == (if viewBox.Some? && |viewBox.value| > 0 then ViewBoxSize(viewBox.value, parseFloat) else None))
  {
  }

  /** A missing attribute reads as "0", so a root with neither attribute needs its `viewBox`. */
  lemma MissingAttributesNeedViewBox(parseFloat: string -> Option<real>)
    requires parseFloat("0") == Some(0.0)
    ensures SvgDimensions(None, None, None, parseFloat).None?
    ensures SvgDimensions(None, None, Some("0 0 640 480"), parseFloat)
         == ViewBoxSize("0 0 640 480", parseFloat)
  {
    var s := LowerStr("0");
    assert s == "0";
    NoUnitSuffix("0", parseFloat);
  }

  // ---------------------------------------------------------------- horizontal layout

  /** `sum(...)`, left to right. */
  function Sum(s: seq<real>): real {
    if |s| == 0 then 0.0 else Sum(s[..|s| - 1]) + s[|s| - 1]
  }

  /** `max(...)` of a non-empty sequence. */
  function Max(s: seq<real>): (m: real)
    requires 0 < |s|
    ensures forall k | 0 <= k < |s| :: s[k] <= m
    ensures exists k | 0 <= k < |s| :: s[k] == m
  {
    if |s| == 1 then s[0]
    else
      var rest := Max(s[1..]);
      assert forall k | 1 <= k < |s| :: s[k] == s[1..][k - 1];
      if s[0] >= rest then s[0] else rest
  }

  /** Line 179: the widths plus `spacing` between each neighbouring pair. */
  function TotalWidth(widths: seq<real>, spacing: real): real {
    Sum(widths) + spacing * ((|widths| - 1) as real)
  }

  /** Line 247 after `i` panels: the x offset of panel `i`. */
  function XOffset(widths: seq<real>, spacing: real, i: nat): real
    requires i <= |widths|
  {
    Sum(widths[..i]) + spacing * (i as real)
  }

  /** Lines 230-235: the vertical offset for an alignment; anything other than 'top' or 'bottom' centres. */
  function YOffset(align: string, maxHeight: real, height: real): real {
    if align == "top" then 0.0
    else if align == "bottom" then maxHeight - height
    else (maxHeight - height) / 2.0
  }

  /** Each panel starts `spacing` after the previous one ends. */
  lemma XOffsetStep(widths: seq<real>, spacing: real, i: nat)
    requires i < |widths|
    ensures XOffset(widths, spacing, i + 1) == XOffset(widths, spacing, i) + widths[i] + spacing
  {
    assert widths[..i + 1][..i] == widths[..i];
  }

  /** The last panel ends exactly at the total width. */
  lemma LastPanelEnds(widths: seq<real>, spacing: real)
    requires 0 < |widths|
    ensures XOffset(widths, spacing, |widths| - 1) + widths[|widths| - 1] == TotalWidth(widths, spacing)
  {
    var n := |widths|;
    assert widths[..n] == widths;
    XOffsetStep(widths, spacing, n - 1);
  }

  /** A panel no taller than the tallest one lies inside the combined height. */
  lemma YOffsetBounds(align: string, maxHeight: real, height: real)
    requires height <= maxHeight
    ensures 0.0 <= YOffset(align, maxHeight, height) <= maxHeight - height
    ensures align == "top" ==> YOffset(align, maxHeight, height) == 0.0
    ensures align == "bottom" ==> YOffset(align, maxHeight, height) + height == maxHeight
  {
  }

  /** Where one panel goes. */
  datatype Placement = Placement(x: real, y: real)

  /** Every panel's position. */
  function Placements(widths: seq<real>, heights: seq<real>, spacing: real, maxHeight: real, align: string)
    : (ps: seq<Placement>)
    requires |heights| == |widths|
    ensures |ps| == |widths|
  {
    seq(|widths|, i requires 0 <= i < |widths| =>
      Placement(XOffset(widths, spacing, i), YOffset(align, maxHeight, heights[i])))
  }

  /** Lines 227-247: the loop that accumulates `x_offset` and places each panel. */
  method PlacePanels(widths: seq<real>, heights: seq<real>, spacing: real, maxHeight: real, align: string)
    returns (placements: seq<Placement>)
    requires |heights| == |widths|
    ensures placements == Placements(widths, heights, spacing, maxHeight, align)
  {
    placements := [];
    var xOffset := 0.0;
    for i := 0 to |widths|
      invariant |placements| == i
      invariant xOffset == XOffset(widths, spacing, i)
      invariant forall j | 0 <= j < i ::
        placements[j] == Placement(XOffset(widths, spacing, j), YOffset(align, maxHeight, heights[j]))
    {
      var yOffset;
      if align == "top" {
        yOffset := 0.0;
      } else if align == "bottom" {
        yOffset := maxHeight - heights[i];
      } else {
        yOffset := (maxHeight - heights[i]) / 2.0;
      }
      placements := placements + [Placement(xOffset, yOffset)];
      XOffsetStep(widths, spacing, i);
      xOffset := xOffset + widths[i] + spacing;
    }
    assert placements == Placements(widths, heights, spacing, maxHeight, align);
  }

  // ---------------------------------------------------------------- combine_horizontal

  /** One input file, as far as the layout needs it: its path and its root's size attributes. */
  datatype SvgFile = SvgFile(path: string, width: Option<string>, height: Option<string>, viewBox: Option<string>)

  datatype CombineError =
    | TooFewFiles                 // ValueError: fewer than 2 inputs
    | FileNotFound(path: string)  // FileNotFoundError for the first missing input
    | BadDimensions(path: string) // ValueError from parse_svg_dimensions

  /** The combined canvas and where each panel goes on it. */
  datatype Combined = Combined(totalWidth: real, maxHeight: real, placements: seq<Placement>)

  /** The first input that is not a file. */
  function FirstMissing(files: seq<SvgFile>, isFile: string -> bool): (r: Option<nat>)
    ensures r.Some? ==> r.value < |files| && !isFile(files[r.value].path)
    ensures r.Some? ==> forall k | 0 <= k < r.value :: isFile(files[k].path)
    ensures r.None? ==> forall k | 0 <= k < |files| :: isFile(files[k].path)
  {
    if |files| == 0 then None
    else if !isFile(files[0].path) then Some(0)
    else match FirstMissing(files[1..], isFile)
      case None => None
      case Some(k) => Some(k + 1)
  }

  function SizeOf(f: SvgFile, parseFloat: string -> Option<real>): Option<(real, real)> {
    SvgDimensions(f.width, f.height, f.viewBox, parseFloat)
  }

  /** Every input's size, or `None` where reading it raises. */
  function Sizes(files: seq<SvgFile>, parseFloat: string -> Option<real>): (sizes: seq<Option<(real, real)>>)
    ensures |sizes| == |files|
    ensures forall k | 0 <= k < |files| :: sizes[k] == SizeOf(files[k], parseFloat)
  {
    seq(|files|, k requires 0 <= k < |files| => SizeOf(files[k], parseFloat))
  }

  /** The first size that could not be determined. */
  function FirstBadSize(sizes: seq<Option<(real, real)>>): (r: Option<nat>)
    ensures r.Some? ==> r.value < |sizes| && sizes[r.value].None?
    ensures r.Some? ==> forall k | 0 <= k < r.value :: sizes[k].Some?
    ensures r.None? ==> forall k | 0 <= k < |sizes| :: sizes[k].Some?
  {
    if |sizes| == 0 then None
    else if sizes[0].None? then Some(0)
    else match FirstBadSize(sizes[1..])
      case None => None
      case Some(k) => Some(k + 1)
  }

  /** The widths and heights, once every size is known. */
  function Widths(sizes: seq<Option<(real, real)>>): (ws: seq<real>)
    requires FirstBadSize(sizes).None?
    ensures |ws| == |sizes| && forall k | 0 <= k < |sizes| :: Some((ws[k], sizes[k].value.1)) == sizes[k]
  {
    seq(|sizes|, k requires 0 <= k < |sizes| => sizes[k].value.0)
  }

  function Heights(sizes: seq<Option<(real, real)>>): (hs: seq<real>)
    requires FirstBadSize(sizes).None?
    ensures |hs| == |sizes| && forall k | 0 <= k < |sizes| :: Some((sizes[k].value.0, hs[k])) == sizes[k]
  {
    seq(|sizes|, k requires 0 <= k < |sizes| => sizes[k].value.1)
  }

  /** `combine_horizontal` up to the SVG text it writes: the checks, the totals and every panel's position. */
  function CombineSpec(files: seq<SvgFile>, isFile: string -> bool, parseFloat: string -> Option<real>,
                       spacing: real, align: string): Result<Combined, CombineError>
  {
    if |files| < 2 then Err(TooFewFiles)
    else if FirstMissing(files, isFile).Some? then Err(FileNotFound(files[FirstMissing(files, isFile).value].path))
    else if FirstBadSize(Sizes(files, parseFloat)).Some? then
      Err(BadDimensions(files[FirstBadSize(Sizes(files, parseFloat)).value].path))
    else
      var ws := Widths(Sizes(files, parseFloat));
      var hs := Heights(Sizes(files, parseFloat));
      var maxHeight := Max(hs);
      Ok(Combined(TotalWidth(ws, spacing), maxHeight, Placements(ws, hs, spacing, maxHeight, align)))
  }

  /** The input checks come before any file is read: their errors do not depend on the files' contents. */
  lemma ChecksBeforeReading(files: seq<SvgFile>, isFile: string -> bool, pf1: string -> Option<real>,
                            pf2: string -> Option<real>, spacing: real, align: string)
    requires |files| < 2 || FirstMissing(files, isFile).Some?
    ensures CombineSpec(files, isFile, pf1, spacing, align) == CombineSpec(files, isFile, pf2, spacing, align)
    ensures CombineSpec(files, isFile, pf1, spacing, align).Err?
    ensures |files| < 2 <==> CombineSpec(files, isFile, pf1, spacing, align) == Err(TooFewFiles)
  {
  }

  /**
    A successful layout has one panel per input; the panels sit side by side,
    `spacing` apart, the last one ending at the total width; every panel lies
    within the combined height.
   */
  lemma CombinedLayout(files: seq<SvgFile>, isFile: string -> bool, parseFloat: string -> Option<real>,
                       spacing: real, align: string)
    requires CombineSpec(files, isFile, parseFloat, spacing, align).Ok?
    ensures var c := CombineSpec(files, isFile, parseFloat, spacing, align).value;
      && |c.placements| == |files| >= 2
      && c.placements[0].x == 0.0
      && (forall i | 0 <= i < |files| - 1 ::
            c.placements[i + 1].x == c.placements[i].x + SizeOf(files[i], parseFloat).value.0 + spacing)
      && c.placements[|files| - 1].x + SizeOf(files[|files| - 1], parseFloat).value.0 == c.totalWidth
      && (forall i | 0 <= i < |files| ::
            0.0 <= c.placements[i].y && c.placements[i].y + SizeOf(files[i], parseFloat).value.1 <= c.maxHeight)
  {
    var ws := Widths(Sizes(files, parseFloat));
    var hs := Heights(Sizes(files, parseFloat));
    var c := CombineSpec(files, isFile, parseFloat, spacing, align).value;
    assert ws[..0] == [];
    forall i | 0 <= i < |files| - 1
      ensures c.placements[i + 1].x == c.placements[i].x + SizeOf(files[i], parseFloat).value.0 + spacing
    {
      XOffsetStep(ws, spacing, i);
    }
    LastPanelEnds(ws, spacing);
    forall i | 0 <= i < |files|
      ensures 0.0 <= c.placements[i].y && c.placements[i].y + SizeOf(files[i], parseFloat).value.1 <= c.maxHeight
    {
      YOffsetBounds(align, c.maxHeight, hs[i]);
    }
  }

  /** Lines 161-163: the existence check of every input, stopping at the first missing one. */
  method FindMissing(files: seq<SvgFile>, isFile: string -> bool) returns (r: Option<nat>)
    ensures r == FirstMissing(files, isFile)
  {
    for k := 0 to |files|
      invariant forall j | 0 <= j < k :: isFile(files[j].path)
    {
      if !isFile(files[k].path) {
        FirstMissingAt(files, isFile, k);
        return Some(k);
      }
    }
    return None;
  }

  lemma FirstMissingAt(files: seq<SvgFile>, isFile: string -> bool, k: nat)
    requires k < |files| && !isFile(files[k].path) && forall j | 0 <= j < k :: isFile(files[j].path)
    ensures FirstMissing(files, isFile) == Some(k)
  {
    var r := FirstMissing(files, isFile);
    assert r.Some?;
    assert k <= r.value;
  }

  lemma FirstBadSizeAt(sizes: seq<Option<(real, real)>>, k: nat)
    requires k < |sizes| && sizes[k].None? && forall j | 0 <= j < k :: sizes[j].Some?
    ensures FirstBadSize(sizes) == Some(k)
  {
    var r := FirstBadSize(sizes);
    assert r.Some?;
    assert k <= r.value;
  }

  /** Lines 166-176: every input's size, stopping at the first that raises. */
  method ReadSizes(files: seq<SvgFile>, parseFloat: string -> Option<real>)
    returns (r: Result<(seq<real>, seq<real>), CombineError>)
    ensures var sizes := Sizes(files, parseFloat);
      && (r.Err? <==> FirstBadSize(sizes).Some?)
      && (r.Err? ==> r.error == BadDimensions(files[FirstBadSize(sizes).value].path))
      && (r.Ok? ==> r.value == (Widths(sizes), Heights(sizes)))
  {
    ghost var sizes := Sizes(files, parseFloat);
    var widths: seq<real> := [];
    var heights: seq<real> := [];
    for k := 0 to |files|
      invariant |widths| == k && |heights| == k
      invariant forall j | 0 <= j < k :: sizes[j] == Some((widths[j], heights[j]))
    {
      var size := SizeOf(files[k], parseFloat);
      if size.None? {
        FirstBadSizeAt(sizes, k);
        return Err(BadDimensions(files[k].path));
      }
      widths := widths + [size.value.0];
      heights := heights + [size.value.1];
    }
    assert widths == Widths(sizes);
    assert heights == Heights(sizes);
    return Ok((widths, heights));
  }

  lemma {:induction false} CombineSpecMissing(files: seq<SvgFile>, isFile: string -> bool,
                                             parseFloat: string -> Option<real>, spacing: real, align: string, k: nat)
    requires 2 <= |files| && FirstMissing(files, isFile) == Some(k)
    ensures CombineSpec(files, isFile, parseFloat, spacing, align) == Err(FileNotFound(files[k].path))
  {
  }

  lemma {:induction false} CombineSpecBadSize(files: seq<SvgFile>, isFile: string -> bool,
                                              parseFloat: string -> Option<real>, spacing: real, align: string,
                                              e: CombineError)
    requires 2 <= |files| && FirstMissing(files, isFile).None?
    requires var sizes := Sizes(files, parseFloat);
      FirstBadSize(sizes).Some? && e == BadDimensions(files[FirstBadSize(sizes).value].path)
    ensures CombineSpec(files, isFile, parseFloat, spacing, align) == Err(e)
  {
  }

  lemma {:induction false} CombineSpecOk(files: seq<SvgFile>, isFile: string -> bool,
                                         parseFloat: string -> Option<real>, spacing: real, align: string,
                                         widths: seq<real>, heights: seq<real>, placements: seq<Placement>)
    requires 2 <= |files| && FirstMissing(files, isFile).None?
    requires var sizes := Sizes(files, parseFloat);
      FirstBadSize(sizes).None? && widths == Widths(sizes) && heights == Heights(sizes)
    requires placements == Placements(widths, heights, spacing, Max(heights), align)
    ensures CombineSpec(files, isFile, parseFloat, spacing, align)
         == Ok(Combined(TotalWidth(widths, spacing), Max(heights), placements))
  {
  }

  /** Lines 157-180 and 227-247: check the inputs, read every size, then lay the panels out. */
  method CombineHorizontal(files: seq<SvgFile>, isFile: string -> bool, parseFloat: string -> Option<real>,
                           spacing: real, align: string) returns (r: Result<Combined, CombineError>)
    ensures r == CombineSpec(files, isFile, parseFloat, spacing, align)
  {
    if |files| < 2 {
      return Err(TooFewFiles);
    }
    var missing := FindMissing(files, isFile);
    if missing.Some? {
      CombineSpecMissing(files, isFile, parseFloat, spacing, align, missing.value);
      return Err(FileNotFound(files[missing.value].path));
    }
    var sizes := ReadSizes(files, parseFloat);
    if sizes.Err? {
      CombineSpecBadSize(files, isFile, parseFloat, spacing, align, sizes.error);
      return Err(sizes.error);
    }
    var widths := sizes.value.0;
    var heights := sizes.value.1;
    var totalWidth := TotalWidth(widths, spacing);
    var maxHeight := Max(heights);
    var placements := PlacePanels(widths, heights, spacing, maxHeight, align);
    CombineSpecOk(files, isFile, parseFloat, spacing, align, widths, heights, placements);
    return Ok(Combined(totalWidth, maxHeight, placements));
  }

  // ---------------------------------------------------------------- content extraction fallback

  /** Line 286: the opening tag's line. */
  predicate OpensSvg(line: string) {
    Contains(line, "<svg") && Contains(line, ">")
  }

  /** Lines 284-288: the line after the first opening tag, or 0 when there is none. */
  function ContentStart(lines: seq<string>): (s: nat)
    ensures s <= |lines|
    ensures s > 0 ==> OpensSvg(lines[s - 1]) && forall k | 0 <= k < s - 1 :: !OpensSvg(lines[k])
    ensures s == 0 ==> forall k | 0 <= k < |lines| :: !OpensSvg(lines[k])
  {
    if |lines| == 0 then 0
    else if OpensSvg(lines[0]) then 1
    else
      var s := ContentStart(lines[1..]);
      if s == 0 then 0 else s + 1
  }

  /** Lines 290-294: the last line holding the closing tag, or the line count when there is none. */
  function ContentEnd(lines: seq<string>): (e: nat)
    ensures e <= |lines|
    ensures e < |lines| ==> Contains(lines[e], "</svg>") && forall k | e < k < |lines| :: !Contains(lines[k], "</svg>")
    ensures e == |lines| ==> forall k | 0 <= k < |lines| :: !Contains(lines[k], "</svg>")
  {
    if |lines| == 0 then 0
    else if Contains(lines[|lines| - 1], "</svg>") then |lines| - 1
    else
      var e := ContentEnd(lines[..|lines| - 1]);
      if e == |lines| - 1 then |lines| else e
  }

  /** Python's `lines[start:end]` for `0 <= start, end <= len(lines)`: empty when `start > end`. */
  function Slice(lines: seq<string>, start: nat, end: nat): seq<string>
    requires start <= |lines| && end <= |lines|
  {
    if start <= end then lines[start..end] else []
  }

  /** The fallback's result: the kept lines, each indented by four spaces, joined and closed by a newline. */
  function Extracted(content: string): string {
    var lines := Split(content, '\n');
    var kept := Slice(lines, ContentStart(lines), ContentEnd(lines));
    "    " + Join(kept, "\n    ") + "\n"
  }

  /** Concatenation of "    " + line + "\n" over the lines. */
  function Indented(lines: seq<string>): string {
    if |lines| == 0 then "" else "    " + lines[0] + "\n" + Indented(lines[1..])
  }

  lemma {:induction false} JoinIndented(lines: seq<string>)
    requires 0 < |lines|
    ensures "    " + Join(lines, "\n    ") + "\n" == Indented(lines)
  {
    if |lines| > 1 {
      JoinIndented(lines[1..]);
    }
  }

  /**
    When some content line is kept, the fallback's result is exactly those lines,
    each indented by four spaces and ended by a newline; when none is, it is a
    lone indented newline.
   */
  lemma ExtractedLines(content: string)
    ensures var lines := Split(content, '\n');
            var kept := Slice(lines, ContentStart(lines), ContentEnd(lines));
      Extracted(content) == if |kept| == 0 then "    \n" else Indented(kept)
  {
    var lines := Split(content, '\n');
    var kept := Slice(lines, ContentStart(lines), ContentEnd(lines));
    if |kept| > 0 {
      JoinIndented(kept);
    }
  }

  /** Lines 280-297: the index loops of the fallback, then the join and the indenting `replace`. */
  method ExtractFallback(content: string) returns (out: string)
    ensures out == Extracted(content)
  {
    var lines := Split(content, '\n');
    var startIdx := 0;
    var endIdx := |lines|;
    var i := 0;
    while i < |lines|
      invariant 0 <= i <= |lines|
      invariant forall k | 0 <= k < i :: !OpensSvg(lines[k])
    {
      if OpensSvg(lines[i]) {
        startIdx := i + 1;
        break;
      }
      i := i + 1;
    }
    assert startIdx == ContentStart(lines);
    var j := |lines| - 1;
    while j >= 0
      invariant -1 <= j < |lines|
      invariant forall k | j < k < |lines| :: !Contains(lines[k], "</svg>")
    {
      if Contains(lines[j], "</svg>") {
        endIdx := j;
        break;
      }
      j := j - 1;
    }
    assert endIdx == ContentEnd(lines);
    var kept := Slice(lines, startIdx, endIdx);
    var joined := Join(kept, "\n");
    ReplaceJoin(kept, '\n', "\n    ");
    out := "    " + Replace(joined, '\n', "\n    ") + "\n";
  }
}
