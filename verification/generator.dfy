/** `MaterialIconGenerator`: a 500x500 canvas per icon and colour scheme,
    filled with the scheme's background, with the recoloured icon rendered
    at 250x250 and pasted in the middle, saved as
    `<output_dir>/<icon>-<scheme>.png`. */
module Generator {
  import opened Wrappers
  import opened Imaging
  import opened Lookup
  import Recolor

  const CanvasSize := 500
  const IconSize := 250

  /** One colour scheme: icon colour, optional background, output
      directory. */
  datatype ColorConfig = ColorConfig(iconColor: string, bgColor: Option<string>, outputDir: string)

  /** The schemes in the order the dictionary lists them. */
  const ConfigNames: seq<string> := ["blue-alpha", "blue-beige", "orange-blue", "blue-yellow"]

  const IconColor := "#221FBB"

  /** The colour-scheme table, looked up by name like a dictionary. */
  function ConfigNamed(name: string): Option<ColorConfig>
  {
    if name == "blue-alpha" then Some(ColorConfig(IconColor, None, "icons/blue-alpha"))
    else if name == "blue-beige" then Some(ColorConfig(IconColor, Some("#F3EBD9"), "icons/blue-beige"))
    else if name == "orange-blue" then Some(ColorConfig(IconColor, Some("#FF9E85"), "icons/orange-blue"))
    else if name == "blue-yellow" then Some(ColorConfig(IconColor, Some("#FFD075"), "icons/blue-yellow"))
    else None
  }

  /** The table holds exactly the listed schemes, each writing to
      `icons/<name>`, all drawing the icon in #221FBB, and only the first
      without a background. */
  lemma ConfigTable(name: string)
    ensures ConfigNamed(name).Some? <==> name in ConfigNames
    ensures ConfigNamed(name).Some? ==>
      && ConfigNamed(name).value.outputDir == "icons/" + name
      && ConfigNamed(name).value.iconColor == IconColor
      && (ConfigNamed(name).value.bgColor.None? <==> name == ConfigNames[0])
  {
  }

  /** What the generator asks of the outside world. */
  datatype Env = Env(
    /** The paths that exist. */
    existing: set<Path>,
    /** The text of a file, `None` when opening or decoding it raises. */
    readText: Path -> Option<string>,
    /** cairosvg rendering markup to a square PNG of the given side,
        decoded by Pillow; `None` when either raises. */
    render: (string, int) -> Option<Raster>,
    /** `ImageColor.getrgb`; `None` when it raises. */
    parseColor: string -> Option<Rgb>,
    /** Whether `os.makedirs(dir, exist_ok=True)` returns normally. */
    makeDirs: string -> bool,
    /** Whether `image.save(path, "PNG")` returns normally. */
    save: (string, Image) -> bool)

  /** Why one icon could not be generated (the exception it raises). */
  datatype Fault =
    | UnknownConfig(name: string)
    | BadColor(spec: string)
    | DirectoryFailed(dir: string)
    | SaveFailed(path: string)

  /** A generated icon: where it was saved and what was saved there. */
  datatype Saved = Saved(path: string, image: Image)

  /** `hex_to_rgba`: no colour stays no colour; otherwise the parsed colour
      with `alpha` appended, and a parse failure is raised. */
  function HexToRgba(parse: string -> Option<Rgb>, hex: Option<string>, alpha: int): (r: Result<Option<Rgba>, Fault>)
    ensures hex.None? ==> r == Success(None)
    ensures hex.Some? && parse(hex.value).None? ==> r == Failure(BadColor(hex.value))
    ensures hex.Some? && parse(hex.value).Some? ==>
      r.Success? && r.value.Some? && r.value.value.a == alpha &&
      Rgb(r.value.value.r, r.value.value.g, r.value.value.b) == parse(hex.value).value
  {
    match hex
    case None => Success(None)
    case Some(h) =>
      match parse(h)
      case None => Failure(BadColor(h))
      case Some(c) => Success(Some(Rgba(c.r, c.g, c.b, alpha)))
  }

  /** `svg_to_png`: read the file, recolour it, render it; an exception
      in any step is caught and gives no picture. */
  function SvgToPng(env: Env, path: Path, color: string, size: int): (r: Option<Raster>)
    ensures env.readText(path).None? ==> r.None?
    ensures !Recolor.TemplatesParse(color) ==> r.None?
    ensures r.Some? ==>
      && env.readText(path).Some?
      && var markup := Recolor.RecolorSvg(env.readText(path).value, color);
      && markup.Some?
      && env.render(markup.value, size) == r
  {
    match env.readText(path)
    case None => None
    case Some(text) =>
      match Recolor.RecolorSvg(text, color)
      case None => None
      case Some(markup) => env.render(markup, size)
  }

  /** Where the icon's top-left corner goes: `(500 - 250) // 2` both
      ways. */
  const IconOffset := (CanvasSize - IconSize) / 2

  /** `add_icon_to_image`: the canvas keeps its mode, size and background
      and gains at most one layer, at the icon offset both ways. */
  function AddIconToImage(env: Env, base: Image, icon: string, color: string): (r: Image)
    ensures r.(layers := base.layers) == base
    ensures r == base || (|r.layers| == |base.layers| + 1 && r.layers[..|base.layers|] == base.layers)
    ensures r != base ==> var top := r.layers[|base.layers|];
      top.x == IconOffset && top.y == IconOffset && top.picture.mode == RGBA
  {
    match FindSvgFile(env.existing, icon)
    case None => base
    case Some(path) =>
      match SvgToPng(env, path, color, IconSize)
      case None => base
      case Some(picture) => Paste(base, ToRgba(picture), IconOffset, IconOffset)
  }

  /** `os.path.join(a, b)` on POSIX: an absolute `b` replaces `a`; a
      separator is added only when `a` is non-empty and lacks one. */
  function PosixJoin(a: string, b: string): (r: string)
    ensures |b| <= |r| && r[|r| - |b|..] == b
    ensures |b| > 0 && b[0] == '/' ==> r == b
    ensures (|b| == 0 || b[0] != '/') ==>
      var dir := r[..|r| - |b|];
      && |a| <= |dir| <= |a| + 1 && dir[..|a|] == a
      && (|a| > 0 ==> dir[|dir| - 1] == '/')
      && (|dir| > |a| ==> |a| > 0 && a[|a| - 1] != '/')
  {
    if |b| > 0 && b[0] == '/' then b
    else if |a| == 0 || a[|a| - 1] == '/' then a + b
    else a + "/" + b
  }

  function FileName(icon: string, configName: string): string
  {
    icon + "-" + configName + ".png"
  }

  /** The background fill: transparent when the scheme has no background
      or an empty one, otherwise the parsed colour made opaque. */
  function Background(parse: string -> Option<Rgb>, config: ColorConfig): (r: Result<Rgba, Fault>)
    ensures config.bgColor.None? || config.bgColor.value == "" ==> r == Success(Transparent)
    ensures r.Success? ==> r.value.a in {0, 255}
    ensures r.Success? && r.value.a == 255 ==>
      && config.bgColor.Some? && parse(config.bgColor.value).Some?
      && var c := parse(config.bgColor.value).value;
      r.value == Rgba(c.r, c.g, c.b, 255)
    ensures r.Failure? <==>
      config.bgColor.Some? && config.bgColor.value != "" && parse(config.bgColor.value).None?
    ensures r.Failure? ==> r.error == BadColor(config.bgColor.value)
  {
    if config.bgColor.None? || config.bgColor.value == "" then Success(Transparent)
    else match HexToRgba(parse, config.bgColor, 255)
      case Failure(f) => Failure(f)
      case Success(c) => if c.Some? then Success(c.value) else Success(Transparent)
  }

  /** The image `generate_icon` saves: the background canvas with the
      icon added. */
  function Compose(env: Env, icon: string, config: ColorConfig): Result<Image, Fault>
  {
    match Background(env.parseColor, config)
    case Failure(f) => Failure(f)
    case Success(fill) => Success(AddIconToImage(env, Image(RGBA, CanvasSize, CanvasSize, fill, []), icon, config.iconColor))
  }

  function OutputPath(config: ColorConfig, icon: string, configName: string): string
  {
    PosixJoin(config.outputDir, FileName(icon, configName))
  }

  /** `generate_icon`. The steps run in the source's order, so the first
      one that raises decides the fault. */
  function GenerateIcon(env: Env, icon: string, configName: string): (r: Result<Saved, Fault>)
    ensures configName !in ConfigNames ==> r == Failure(UnknownConfig(configName))
    ensures r.Success? ==>
      && env.save(r.value.path, r.value.image)
      && r.value.image.mode == RGBA && r.value.image.width == CanvasSize && r.value.image.height == CanvasSize
  {
    ConfigTable(configName);
    match ConfigNamed(configName)
    case None => Failure(UnknownConfig(configName))
    case Some(config) =>
      match Compose(env, icon, config)
      case Failure(f) => Failure(f)
      case Success(image) =>
        if !env.makeDirs(config.outputDir) then Failure(DirectoryFailed(config.outputDir))
        else
          var path := OutputPath(config, icon, configName);
          if !env.save(path, image) then Failure(SaveFailed(path))
          else Success(Saved(path, image))
  }

  // ---------------------------------------------------------------------
  // Properties.

  /** The canvas comes back untouched exactly when there is no source
      file, it cannot be read, the colour cannot be put into the
      replacement templates, or the markup cannot be rendered; otherwise
      the only change is the icon, converted to RGBA, pasted at the offset
      where its 250x250 square sits in the middle of the 500x500 canvas. */
  lemma AddIconPlacement(env: Env, base: Image, icon: string, color: string)
    ensures var found := FindSvgFile(env.existing, icon);
      AddIconToImage(env, base, icon, color) == base <==>
        || found.None?
        || env.readText(found.value).None?
        || Recolor.RecolorSvg(env.readText(found.value).value, color).None?
        || env.render(Recolor.RecolorSvg(env.readText(found.value).value, color).value, IconSize).None?
    ensures var found := FindSvgFile(env.existing, icon);
      found.Some? && SvgToPng(env, found.value, color, IconSize).Some? ==>
        var picture := SvgToPng(env, found.value, color, IconSize).value;
        && AddIconToImage(env, base, icon, color) == base.(layers := base.layers + [Layer(ToRgba(picture), IconOffset, IconOffset)])
        && ToRgba(picture).mode == RGBA
    ensures 0 <= IconOffset && IconOffset + IconSize <= CanvasSize && CanvasSize - (IconOffset + IconSize) == IconOffset
  {
    var found := FindSvgFile(env.existing, icon);
    if found.Some? && SvgToPng(env, found.value, color, IconSize).Some? {
      assert |AddIconToImage(env, base, icon, color).layers| == |base.layers| + 1;
    }
  }

  /** A saved icon is a 500x500 RGBA image on a transparent background
      when the scheme has none, and on the scheme's colour at full opacity
      otherwise; a missing source leaves the background alone. */
  lemma GeneratedBackground(env: Env, icon: string, configName: string)
    requires GenerateIcon(env, icon, configName).Success?
    ensures var image := GenerateIcon(env, icon, configName).value.image;
      var config := ConfigNamed(configName).value;
      && image.mode == RGBA && image.width == 500 && image.height == 500
      && (config.bgColor.None? ==> image.background == Transparent)
      && (config.bgColor.Some? ==>
            var c := env.parseColor(config.bgColor.value).value;
            image.background == Rgba(c.r, c.g, c.b, 255))
      && (FindSvgFile(env.existing, icon).None? ==> image.layers == [])
  {
    var config := ConfigNamed(configName).value;
    ConfigTable(configName);
    var image := GenerateIcon(env, icon, configName).value.image;
    var canvas := Image(RGBA, CanvasSize, CanvasSize, image.background, []);
    assert AddIconToImage(env, canvas, icon, config.iconColor).(layers := []) == canvas by {
      AddIconPlacement(env, canvas, icon, config.iconColor);
    }
  }

  /** `icons/<scheme>/<icon>-<scheme>.png`. */
  function SchemeFile(icon: string, configName: string): string
  {
    "icons/" + configName + "/" + icon + "-" + configName + ".png"
  }

  /** Each scheme writes `<icon>-<scheme>.png` into `icons/<scheme>`. */
  lemma OutputPathOf(icon: string, configName: string)
    requires configName in ConfigNames
    requires |icon| == 0 || icon[0] != '/'
    ensures OutputPath(ConfigNamed(configName).value, icon, configName) == SchemeFile(icon, configName)
  {
    SchemeDir(configName);
    OutputUnderDir(ConfigNamed(configName).value, icon, configName);
  }

  lemma OutputUnderDir(config: ColorConfig, icon: string, configName: string)
    requires config.outputDir == "icons/" + configName
    requires |icon| == 0 || icon[0] != '/'
    requires var dir := "icons/" + configName; dir[|dir| - 1] != '/'
    ensures OutputPath(config, icon, configName) == SchemeFile(icon, configName)
  {
    var dir := "icons/" + configName;
    var file := FileName(icon, configName);
    JoinUnderDir(dir, file);
    assert dir + "/" + file == SchemeFile(icon, configName);
  }

  lemma SchemeDir(configName: string)
    requires configName in ConfigNames
    ensures ConfigNamed(configName).value.outputDir == "icons/" + configName
    ensures var dir := "icons/" + configName; dir[|dir| - 1] != '/'
  {
    ConfigTable(configName);
    var dir := "icons/" + configName;
    assert dir[|dir| - 1] == configName[|configName| - 1];
  }

  lemma JoinUnderDir(dir: string, file: string)
    requires |dir| > 0 && dir[|dir| - 1] != '/'
    requires |file| == 0 || file[0] != '/'
    ensures PosixJoin(dir, file) == dir + "/" + file
  {
  }

  /** `generate_icon` returns normally exactly when the scheme exists, its
      background parses, the directory can be made and the image saved;
      it then returns the path the image was saved to. A missing or
      unrenderable source does not stop it. */
  lemma GenerateIconOutcome(env: Env, icon: string, configName: string)
    ensures var r := GenerateIcon(env, icon, configName);
      r.Success? <==>
        && configName in ConfigNames
        && var config := ConfigNamed(configName).value;
        && Compose(env, icon, config).Success?
        && env.makeDirs(config.outputDir)
        && env.save(OutputPath(config, icon, configName), Compose(env, icon, config).value)
    ensures var r := GenerateIcon(env, icon, configName);
      r.Success? ==>
        && r.value.path == OutputPath(ConfigNamed(configName).value, icon, configName)
        && env.save(r.value.path, r.value.image)
    ensures configName in ConfigNames && Compose(env, icon, ConfigNamed(configName).value).Success? ==>
      Compose(env, icon, ConfigNamed(configName).value).value.background.a in {0, 255}
  {
    ConfigTable(configName);
  }

  /** Different icons or schemes never write the same file. */
  lemma OutputPathsDistinct(icon1: string, name1: string, icon2: string, name2: string)
    requires name1 in ConfigNames && name2 in ConfigNames
    requires |icon1| == 0 || icon1[0] != '/'
    requires |icon2| == 0 || icon2[0] != '/'
    requires (icon1, name1) != (icon2, name2)
    ensures OutputPath(ConfigNamed(name1).value, icon1, name1) != OutputPath(ConfigNamed(name2).value, icon2, name2)
  {
    OutputPathOf(icon1, name1);
    OutputPathOf(icon2, name2);
    SchemeFilesDistinct(icon1, name1, icon2, name2);
  }

  lemma SchemeFilesDistinct(icon1: string, name1: string, icon2: string, name2: string)
    requires name1 in ConfigNames && name2 in ConfigNames
    requires (icon1, name1) != (icon2, name2)
    ensures SchemeFile(icon1, name1) != SchemeFile(icon2, name2)
  {
    if name1 != name2 {
      var k := NamesDiffer(name1, name2);
      SchemesApart(icon1, name1, icon2, name2, k);
    } else {
      IconsApart(icon1, icon2, name1);
    }
  }

  lemma SchemesApart(icon1: string, name1: string, icon2: string, name2: string, k: nat)
    requires k < |name1| && k < |name2| && name1[k] != name2[k]
    ensures SchemeFile(icon1, name1) != SchemeFile(icon2, name2)
  {
    var r1 := "/" + icon1 + "-" + name1 + ".png";
    var r2 := "/" + icon2 + "-" + name2 + ".png";
    assert SchemeFile(icon1, name1) == "icons/" + (name1 + r1);
    assert SchemeFile(icon2, name2) == "icons/" + (name2 + r2);
    DifferAfterPrefix("icons/", name1 + r1, name2 + r2, k);
  }

  lemma IconsApart(icon1: string, icon2: string, name: string)
    requires icon1 != icon2
    ensures SchemeFile(icon1, name) != SchemeFile(icon2, name)
  {
    var head := "icons/" + name + "/";
    var tail := "-" + name + ".png";
    assert SchemeFile(icon1, name) == head + icon1 + tail;
    assert SchemeFile(icon2, name) == head + icon2 + tail;
    if head + icon1 + tail == head + icon2 + tail {
      FileNameInjective(icon1, icon2, head, tail);
    }
  }

  lemma DifferAfterPrefix(head: string, a: string, b: string, k: nat)
    requires k < |a| && k < |b| && a[k] != b[k]
    ensures head + a != head + b
  {
    assert (head + a)[|head| + k] == a[k];
    assert (head + b)[|head| + k] == b[k];
  }

  lemma FileNameInjective(icon1: string, icon2: string, head: string, tail: string)
    requires head + icon1 + tail == head + icon2 + tail
    ensures icon1 == icon2
  {
    var p := head + icon1 + tail;
    assert icon1 == p[|head|..|p| - |tail|];
    assert icon2 == (head + icon2 + tail)[|head|..|p| - |tail|];
  }

  /** Two different scheme names differ at an index both have. */
  lemma NamesDiffer(a: string, b: string) returns (k: nat)
    requires a in ConfigNames && b in ConfigNames && a != b
    ensures k < |a| && k < |b| && a[k] != b[k]
  {
    if a[0] != b[0] { k := 0; } else { k := 5; }
  }
}
