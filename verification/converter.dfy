/** `convert_svg.py`: render an SVG at a given width, with the height set
    by the 53:47 aspect ratio, and centre it on a transparent square
    canvas. A script of its own, unrelated to the generator. */
module Converter {
  import opened Wrappers
  import opened Imaging

  const DefaultIconWidth := 350
  const DefaultContainerSize := 500

  /** Python's `int()` of a quotient: rounds toward zero. */
  function TruncDiv(a: int, b: int): (q: int)
    requires b > 0
    ensures a >= 0 ==> 0 <= q * b <= a < (q + 1) * b
    ensures a < 0 ==> (q - 1) * b < a <= q * b <= 0
  {
    if a >= 0 then
      FloorDivBounds(a, b);
      a / b
    else
      FloorDivBounds(-a, b);
      -((-a) / b)
  }

  lemma FloorDivBounds(a: nat, b: int)
    requires b > 0
    ensures 0 <= (a / b) * b <= a < (a / b + 1) * b
  {
    var q, r := a / b, a % b;
    assert a == q * b + r && 0 <= r < b;
    assert (q + 1) * b == q * b + b;
    assert q >= 0;
  }

  /** `int(icon_width * (47 / 53))`, taking the ratio as exact: the
      height keeps the 53:47 ratio, rounded toward zero. */
  function IconHeight(width: int): (h: int)
    ensures width >= 0 ==> 53 * h <= 47 * width < 53 * (h + 1)
    ensures width < 0 ==> 53 * (h - 1) < 47 * width <= 53 * h <= 0
  {
    TruncDiv(width * 47, 53)
  }

  /** `(container - size) // 2`: Python floors, as Dafny's `/` does for a
      positive divisor. */
  function CenterOffset(container: int, size: int): (x: int)
    ensures container - size - x == x || container - size - x == x + 1
  {
    (container - size) / 2
  }

  /** What the converter asks of the outside world. */
  datatype ConvertIo = ConvertIo(
    /** cairosvg writing the SVG file at `(width, height)` to the temporary
        PNG, then Pillow opening it; `None` when either raises. */
    render: (string, int, int) -> Option<Raster>,
    /** Whether `canvas.save(path, "PNG")` returns normally. */
    save: (string, Image) -> bool)

  /** The outcome: the boolean the function returns, and the image written
      to the output path when it returns `True`. */
  datatype Conversion = Conversion(success: bool, written: Option<Image>)

  /** `convert_svg_to_centered_png`; every exception becomes `False`. */
  function ConvertSvgToCenteredPng(io: ConvertIo, svgFile: string, pngFile: string, iconWidth: int, containerSize: int): (c: Conversion)
    ensures c.success <==> c.written.Some?
    ensures c.success ==>
      && io.render(svgFile, iconWidth, IconHeight(iconWidth)).Some?
      && var image := c.written.value;
      && image.mode == RGBA && image.width == containerSize && image.height == containerSize
      && image.background == Transparent && |image.layers| == 1
      && image.layers[0].picture == io.render(svgFile, iconWidth, IconHeight(iconWidth)).value
      && io.save(pngFile, image)
  {
    var iconHeight := IconHeight(iconWidth);
    match io.render(svgFile, iconWidth, iconHeight)
    case None => Conversion(false, None)
    case Some(icon) =>
      match NewImage(RGBA, containerSize, containerSize, Transparent)
      case None => Conversion(false, None)
      case Some(canvas) =>
        var result := Paste(canvas, icon, CenterOffset(containerSize, iconWidth), CenterOffset(containerSize, iconHeight));
        if io.save(pngFile, result) then Conversion(true, Some(result)) else Conversion(false, None)
  }

  /** The exit status of `python3 convert_svg.py <args>`: 1 for a wrong
      argument count, otherwise 0 exactly when the conversion with the
      default sizes succeeds. `argv[0]` is the script name. */
  function CliExit(io: ConvertIo, argv: seq<string>): (r: int)
    ensures r == 0 || r == 1
    ensures |argv| != 3 ==> r == 1
  {
    if |argv| != 3 then 1
    else if ConvertSvgToCenteredPng(io, argv[1], argv[2], DefaultIconWidth, DefaultContainerSize).success then 0
    else 1
  }

  // ---------------------------------------------------------------------
  // Properties.

  /** For a non-negative width the height lies between zero and the
      width. */
  lemma IconHeightRatio(width: int)
    ensures width >= 0 ==> 0 <= IconHeight(width) <= width
  {
  }

  /** A centred size that fits leaves a non-negative margin on each
      side. */
  lemma {:induction false} CenterBalanced(container: int, size: int)
    requires 0 <= size <= container
    ensures var x := CenterOffset(container, size);
      0 <= x && x + size <= container
  {
  }

  /** An icon no wider than the canvas fits on it in both directions. */
  lemma IconFits(iconWidth: int, containerSize: int)
    requires 0 <= iconWidth <= containerSize
    ensures var x := CenterOffset(containerSize, iconWidth);
      var y := CenterOffset(containerSize, IconHeight(iconWidth));
      && 0 <= x && x + iconWidth <= containerSize
      && 0 <= y && y + IconHeight(iconWidth) <= containerSize
  {
    IconHeightRatio(iconWidth);
    CenterBalanced(containerSize, iconWidth);
    CenterBalanced(containerSize, IconHeight(iconWidth));
  }

  /** With the defaults, a 350x310 icon goes at (75, 95) on a 500x500
      canvas. */
  lemma DefaultPlacement()
    ensures IconHeight(DefaultIconWidth) == 310
    ensures CenterOffset(DefaultContainerSize, DefaultIconWidth) == 75
    ensures CenterOffset(DefaultContainerSize, IconHeight(DefaultIconWidth)) == 95
  {
  }

  /** The canvas the conversion saves: transparent, square, with the
      rendered icon pasted once, unconverted, at the centring offsets. */
  function CenteredCanvas(icon: Raster, iconWidth: int, containerSize: int): Image
  {
    Image(RGBA, containerSize, containerSize, Transparent,
      [Layer(icon, CenterOffset(containerSize, iconWidth), CenterOffset(containerSize, IconHeight(iconWidth)))])
  }

  /** The conversion reports success exactly when rendering works, the
      canvas size is not negative and saving the centred canvas works;
      it writes that canvas and nothing on failure. */
  lemma ConversionOutcome(io: ConvertIo, svgFile: string, pngFile: string, iconWidth: int, containerSize: int)
    ensures var c := ConvertSvgToCenteredPng(io, svgFile, pngFile, iconWidth, containerSize);
      var icon := io.render(svgFile, iconWidth, IconHeight(iconWidth));
      c.success <==>
        icon.Some? && containerSize >= 0 && io.save(pngFile, CenteredCanvas(icon.value, iconWidth, containerSize))
    ensures var c := ConvertSvgToCenteredPng(io, svgFile, pngFile, iconWidth, containerSize);
      var icon := io.render(svgFile, iconWidth, IconHeight(iconWidth));
      c.success ==> c.written == Some(CenteredCanvas(icon.value, iconWidth, containerSize))
    ensures !ConvertSvgToCenteredPng(io, svgFile, pngFile, iconWidth, containerSize).success ==>
      ConvertSvgToCenteredPng(io, svgFile, pngFile, iconWidth, containerSize).written.None?
  {
    var icon := io.render(svgFile, iconWidth, IconHeight(iconWidth));
    if icon.Some? && containerSize >= 0 {
      var canvas := NewImage(RGBA, containerSize, containerSize, Transparent).value;
      var layer := Layer(icon.value, CenterOffset(containerSize, iconWidth), CenterOffset(containerSize, IconHeight(iconWidth)));
      assert canvas.layers + [layer] == [layer];
    }
  }

  /** The script exits 0 or 1, and 0 exactly when it was given two
      arguments and the conversion succeeded. */
  lemma CliExitStatus(io: ConvertIo, argv: seq<string>)
    ensures CliExit(io, argv) in {0, 1}
    ensures CliExit(io, argv) == 0 <==>
      |argv| == 3 && ConvertSvgToCenteredPng(io, argv[1], argv[2], 350, 500).success
  {
  }
}
