/**
  A text banner: a fixed-size RGBA buffer holding a rounded translucent
  panel over its whole area and a line of text centred on it.

  Rasterisation is not modelled. The banner records what is drawn and
  where; the text's bounding box comes from a measuring function standing
  for the renderer's text measurement.
 */
module Banner {
  import opened FontChain

  datatype Rgba = Rgba(red: int, green: int, blue: int, alpha: int)

  /** A text bounding box as the renderer measures it, with the text drawn
      at (0, 0). */
  datatype BBox = BBox(left: int, top: int, right: int, bottom: int)

  /** A filled rounded rectangle from (left, top) to (right, bottom). */
  datatype Panel = Panel(left: int, top: int, right: int, bottom: int, radius: nat, fill: Rgba)

  /** The rendered banner: the shape of its pixel array (rows, columns,
      channels), the colour the canvas starts with, the panel drawn over it,
      and the text with the font and origin it is drawn at. */
  datatype Strip = Strip(
    rows: nat, columns: nat, channels: nat,
    canvas: Rgba,
    panel: Panel,
    text: string, font: Font, textX: int, textY: int, textFill: Rgba)

  /** The canvas starts fully transparent; outside the panel's rounded
      corners it stays so. */
  const Transparent: Rgba := Rgba(0, 0, 0, 0)

  /** Corner radius of the panel. */
  const PanelRadius: nat := 20

  /** RGBA: four channels per pixel. */
  const RgbaChannels: nat := 4

  /** Where content of extent `content` starts so that it sits in the middle
      of a box of extent `box`: half the free space, rounded down (floor
      division, so an overflowing content gets a negative origin). The
      space after the content is the space before it, or one more. */
  function CenterOffset(box: int, content: int): (origin: int)
    ensures origin <= box - (origin + content) <= origin + 1
    ensures origin < 0 <==> content > box
    ensures 0 <= content <= box ==> 0 <= origin && origin + content <= box
  {
    // Dafny's division by a positive divisor rounds down, like Python's //
    (box - content) / 2
  }

  /** Renders a banner of exactly boxWidth x boxHeight pixels whatever the
      text: a transparent canvas with the panel's rounded rectangle spanning
      it, the font comes from the fallback
      chain, and the measured text box is centred both ways. */
  method DrawTextStrip(
    host: Host, text: string, fontSize: int, boxWidth: nat, boxHeight: nat,
    fontColor: Rgba, bgColor: Rgba, fontPath: Option<string>,
    measure: (Font, string) -> BBox)
    returns (strip: Strip)
    ensures strip.rows == boxHeight && strip.columns == boxWidth && strip.channels == RgbaChannels
    ensures strip.canvas == Rgba(0, 0, 0, 0)
    ensures strip.panel == Panel(0, 0, boxWidth, boxHeight, PanelRadius, bgColor)
    ensures ChosenFont(host, fontSize, fontPath, strip.font)
    ensures strip.text == text && strip.textFill == fontColor
    ensures var bb := measure(strip.font, text);
      && strip.textX == CenterOffset(boxWidth, bb.right - bb.left)
      && strip.textY == CenterOffset(boxHeight, bb.bottom - bb.top)
  {
    var font := LoadFont(host, fontSize, fontPath);
    var panel := Panel(0, 0, boxWidth, boxHeight, PanelRadius, bgColor);
    var bbox := measure(font, text);
    var textW := bbox.right - bbox.left;
    var textH := bbox.bottom - bbox.top;
    var x := CenterOffset(boxWidth, textW);
    var y := CenterOffset(boxHeight, textH);
    strip := Strip(boxHeight, boxWidth, RgbaChannels, Transparent, panel, text, font, x, y, fontColor);
  }
}
