/** The slice of Pillow the generators use: colours, decoded pictures, and
    images built by `Image.new` and `paste`. Pixel data stays abstract;
    what is modelled is size, mode, background and where each picture is
    pasted. */
module Imaging {
  import opened Wrappers

  /** An 8-bit-per-channel colour as `ImageColor.getrgb` returns it. */
  datatype Rgb = Rgb(r: int, g: int, b: int)

  datatype Rgba = Rgba(r: int, g: int, b: int, a: int)

  /** The fill `(0, 0, 0, 0)` both generators use for a see-through
      canvas. */
  const Transparent := Rgba(0, 0, 0, 0)

  datatype Mode = RGBA | RGB | LA | L | P | OtherMode(name: string)

  /** A decoded picture; `pixels` stands for its content. */
  datatype Raster = Raster(mode: Mode, width: int, height: int, pixels: nat)

  /** A picture pasted at `(x, y)` with its own alpha as the mask. */
  datatype Layer = Layer(picture: Raster, x: int, y: int)

  /** An image made by `Image.new(mode, (width, height), background)`
      followed by the pastes in `layers`, oldest first. */
  datatype Image = Image(mode: Mode, width: int, height: int, background: Rgba, layers: seq<Layer>)

  /** `Image.new`: Pillow refuses a negative width or height. */
  function NewImage(mode: Mode, width: int, height: int, background: Rgba): (r: Option<Image>)
    ensures r.Some? <==> width >= 0 && height >= 0
    ensures r.Some? ==> r.value.layers == [] && r.value.background == background
    ensures r.Some? ==> r.value.width == width && r.value.height == height && r.value.mode == mode
  {
    if width < 0 || height < 0 then None else Some(Image(mode, width, height, background, []))
  }

  /** `picture.convert("RGBA")` when the picture is not already RGBA. */
  function ToRgba(picture: Raster): (r: Raster)
    ensures r.mode == RGBA
    ensures r.width == picture.width && r.height == picture.height && r.pixels == picture.pixels
    ensures picture.mode == RGBA ==> r == picture
  {
    if picture.mode == RGBA then picture else picture.(mode := RGBA)
  }

  /** `base.paste(picture, (x, y), picture)`: the picture goes on top;
      size, mode, background and earlier pastes stay as they were. */
  function Paste(base: Image, picture: Raster, x: int, y: int): (r: Image)
    ensures r.layers == base.layers + [Layer(picture, x, y)]
    ensures r.(layers := base.layers) == base
  {
    base.(layers := base.layers + [Layer(picture, x, y)])
  }
}
