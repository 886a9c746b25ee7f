/**
 * The integer geometry and colour choice of `resize_with_padding`: the image
 * is pasted onto a square canvas of side `max(width, height)` filled with the
 * padding colour, at the floor-divided centring offsets, and the canvas is
 * then resized to `resolution` by `resolution`.
 */
module Padding {

  datatype Size = Size(width: nat, height: nat)

  datatype Rgb = Rgb(red: nat, green: nat, blue: nat)

  const WHITE := Rgb(255, 255, 255)
  const BLACK := Rgb(0, 0, 0)

  /** The default of the `color` parameter. */
  const DEFAULT_COLOR: string := "white"

  /** The canvas fill: white for the exact string `white`, black for anything else. */
  function FillColour(color: string): (fill: Rgb)
    ensures fill == WHITE <==> color == "white"
    ensures fill == BLACK <==> color != "white"
  {
    if color == "white" then WHITE else BLACK
  }

  /** The square canvas and where the image's top-left corner lands on it. */
  datatype Layout = Layout(side: nat, left: nat, top: nat)

  function Max(a: nat, b: nat): nat {
    if a >= b then a else b
  }

  /**
   * The canvas is the smallest square that holds the image, and the image is
   * centred on it; where the spare room is odd the extra pixel goes to the
   * right or bottom margin, because Python's `//` rounds down.
   */
  function PadLayout(img: Size): (l: Layout)
    ensures l.side >= img.width && l.side >= img.height
    ensures l.side == img.width || l.side == img.height
    ensures l.left + img.width <= l.side && l.top + img.height <= l.side
    ensures l.left == 0 || l.top == 0
    ensures var right := l.side - img.width - l.left; right == l.left || right == l.left + 1
    ensures var bottom := l.side - img.height - l.top; bottom == l.top || bottom == l.top + 1
  {
    var side := Max(img.width, img.height);
    // side - width and side - height are non-negative, so Dafny's `/` is Python's `//`
    Layout(side, (side - img.width) / 2, (side - img.height) / 2)
  }

  /** What one canvas pixel shows: the fill colour, or a pixel of the pasted image. */
  datatype Pixel = Fill(colour: Rgb) | Source(x: nat, y: nat)

  /** The canvas after `Image.new(...)` and `paste(img, (left, top))`. */
  function CanvasPixel(img: Size, fill: Rgb, x: nat, y: nat): Pixel {
    var l := PadLayout(img);
    if l.left <= x < l.left + img.width && l.top <= y < l.top + img.height
    then Source(x - l.left, y - l.top)
    else Fill(fill)
  }

  /** Every pixel of the image appears on the canvas, at its offset position. */
  lemma PasteKeepsImage(img: Size, fill: Rgb, x: nat, y: nat)
    requires x < img.width && y < img.height
    ensures var l := PadLayout(img);
      l.left + x < l.side && l.top + y < l.side &&
      CanvasPixel(img, fill, l.left + x, l.top + y) == Source(x, y)
  {
  }

  /** Each canvas pixel shows at most one image pixel, and only a real one. */
  lemma CanvasShowsImagePixel(img: Size, fill: Rgb, x: nat, y: nat)
    requires CanvasPixel(img, fill, x, y).Source?
    ensures var p := CanvasPixel(img, fill, x, y);
      p.x < img.width && p.y < img.height &&
      x == PadLayout(img).left + p.x && y == PadLayout(img).top + p.y
  {
  }

  /**
   * On a non-square image the bottom-right canvas corner is padding, so the
   * fill colour is visible in the output.
   */
  lemma {:induction false} NonSquareCornerIsFill(img: Size, fill: Rgb)
    requires img.width != img.height
    ensures var side := PadLayout(img).side;
      side > 0 && CanvasPixel(img, fill, side - 1, side - 1) == Fill(fill)
  {
    var l := PadLayout(img);
    if img.width > img.height {
      assert l.top + img.height < l.side;
    } else {
      assert l.left + img.width < l.side;
    }
  }

  /** The `--resolution` argument: a positive side length, as `resize` accepts. */
  type Resolution = n: nat | n > 0 witness 1

  /**
   * The padded image after `resize((resolution, resolution))`: the canvas it
   * was resized from is `CanvasPixel(img, fill, x, y)` for `x, y < layout.side`,
   * where `layout == PadLayout(img)` (see `ResizeWithPadding`).
   */
  datatype Normalized = Normalized(layout: Layout, fill: Rgb, width: nat, height: nat)

  /**
   * `resize_with_padding(img, color)`: the output is `resolution` square
   * whatever the aspect ratio of the input, and was resized from the canvas
   * of side `max(width, height)` with the image pasted at the centring
   * offsets of `PadLayout`.
   */
  function ResizeWithPadding(img: Size, color: string, resolution: Resolution): (out: Normalized)
    ensures out.width == resolution && out.height == resolution
    ensures out.layout == PadLayout(img)
    ensures out.layout.side == Max(img.width, img.height)
    ensures out.fill == WHITE <==> color == "white"
    ensures out.fill == BLACK <==> color != "white"
  {
    Normalized(PadLayout(img), FillColour(color), resolution, resolution)
  }

  /** A 100 by 50 image is pasted 25 pixels down on a 100-pixel canvas. */
  lemma WideExample()
    ensures PadLayout(Size(100, 50)) == Layout(100, 0, 25)
  {
  }

  /** A 5 by 2 image sits one pixel above the true centre. */
  lemma OddSpareRoomExample()
    ensures PadLayout(Size(5, 2)) == Layout(5, 0, 1)
  {
  }
}
