/** The media table and the raster geometry of each size, in pixels of the input resolution. */
module Media {
  import opened Outcomes

  type Size = x: nat | x < 0x1_0000_0000_0000_0000
  type Word = x: nat | x < 0x1_0000_0000

  const MARGIN := 400
  const MIN_WIDTH := 7600
  const MAX_WIDTH := 21600
  const MIN_LENGTH := 12700
  const MAX_LENGTH := 35600

  datatype Name =
    | A4 | Letter | Legal | Executive | A5 | A6 | JisB5 | IsoB5 | Env10 | EnvC5 | EnvDl | EnvMonarch
    | Postcard | DoublePostcard | Fanfold | Sixteen | Custom | Invalid

  /** In hundredths of a millimetre along the feed axes. */
  datatype Sheet = Sheet(width: Word, length: Word)

  datatype Geometry = Geometry(
    width: Size, height: Size, left: Size, top: Size, printableWidth: Size, printableHeight: Size)

  function SheetOf(name: Name): Option<Sheet> {
    match name
    case A4 => Some(Sheet(21000, 29700))
    case Letter => Some(Sheet(21590, 27940))
    case Legal => Some(Sheet(21590, 35560))
    case Executive => Some(Sheet(18415, 26670))
    case A5 => Some(Sheet(14800, 21000))
    case A6 => Some(Sheet(10500, 14800))
    case JisB5 => Some(Sheet(18200, 25700))
    case IsoB5 => Some(Sheet(17600, 25000))
    case Env10 => Some(Sheet(10477, 24130))
    case EnvC5 => Some(Sheet(16200, 22900))
    case EnvDl => Some(Sheet(11000, 22000))
    case EnvMonarch => Some(Sheet(9842, 19050))
    case Postcard => Some(Sheet(10000, 14800))
    case DoublePostcard => Some(Sheet(14800, 20000))
    case Fanfold => Some(Sheet(21590, 33020))
    case Sixteen => Some(Sheet(19700, 27300))
    case Custom => Some(Sheet(0, 0))
    case Invalid => None
  }

  /** Standard sizes take 0 by 0 for their own dimensions; a custom size must say what it is. */
  function Chosen(name: Name, width: Word, length: Word): Option<Sheet> {
    var sheet := SheetOf(name);
    if sheet.None? then None
    else if name.Custom? then Some(Sheet(width, length))
    else if width == 0 && length == 0 then sheet
    else if sheet.value == Sheet(width, length) then sheet
    else None
  }

  predicate Fits(sheet: Sheet) {
    MIN_WIDTH <= sheet.width <= MAX_WIDTH && MIN_LENGTH <= sheet.length <= MAX_LENGTH
  }

  /** Truncating, at one of the two input resolutions. */
  function Dots(hundredths: Word, dpi: Word): (dots: Size)
    requires dpi in {600, 1200}
    ensures 2540 * dots <= hundredths * dpi < 2540 * (dots + 1)
  {
    if dpi == 600 then hundredths * 600 / 2540 else hundredths * 1200 / 2540
  }

  function Pixels(sheet: Sheet, dpi: Word): Option<Geometry> {
    if dpi !in {600, 1200} || !Fits(sheet) then None
    else
      var width, height, left, top := Dots(sheet.width, dpi), Dots(sheet.length, 600),
        Dots(MARGIN, dpi), Dots(MARGIN, 600);
      Some(Geometry(width, height, left, top, width - 2 * left, height - 2 * top))
  }

  function GeometryOf(name: Name, width: Word, length: Word, dpi: Word): Option<Geometry> {
    var sheet := Chosen(name, width, length);
    if sheet.None? then None else Pixels(sheet.value, dpi)
  }

  lemma StandardSizesFit(name: Name)
    requires !name.Custom? && !name.Invalid?
    ensures Fits(SheetOf(name).value)
  {
  }

  /** Every listed size is one the printer takes; asked for by name, by its size, or as custom, it is the same. */
  lemma StandardSizesPrint(name: Name, dpi: Word)
    requires !name.Custom? && !name.Invalid? && dpi in {600, 1200}
    ensures var sheet := SheetOf(name).value;
            && GeometryOf(name, 0, 0, dpi).Some?
            && GeometryOf(name, sheet.width, sheet.length, dpi) == GeometryOf(name, 0, 0, dpi)
            && GeometryOf(Custom, sheet.width, sheet.length, dpi) == GeometryOf(name, 0, 0, dpi)
  {
    StandardSizesFit(name);
    var sheet := SheetOf(name);
    assert Chosen(name, 0, 0) == sheet;
    assert Chosen(name, sheet.value.width, sheet.value.length) == sheet;
    assert Chosen(Custom, sheet.value.width, sheet.value.length) == sheet;
  }

  /** The listed sizes, in pixels at 600 dpi. */
  lemma PixelsOfOffice()
    ensures GeometryOf(A4, 0, 0, 600) == Some(Geometry(4960, 7015, 94, 94, 4772, 6827))
    ensures GeometryOf(Letter, 0, 0, 600) == Some(Geometry(5100, 6600, 94, 94, 4912, 6412))
    ensures GeometryOf(Legal, 0, 0, 600) == Some(Geometry(5100, 8400, 94, 94, 4912, 8212))
    ensures GeometryOf(Executive, 0, 0, 600) == Some(Geometry(4350, 6300, 94, 94, 4162, 6112))
    ensures GeometryOf(A4, 0, 0, 1200) == Some(Geometry(9921, 7015, 188, 94, 9545, 6827))
  {
  }

  lemma PixelsOfSmall()
    ensures GeometryOf(A5, 0, 0, 600) == Some(Geometry(3496, 4960, 94, 94, 3308, 4772))
    ensures GeometryOf(A6, 0, 0, 600) == Some(Geometry(2480, 3496, 94, 94, 2292, 3308))
    ensures GeometryOf(JisB5, 0, 0, 600) == Some(Geometry(4299, 6070, 94, 94, 4111, 5882))
    ensures GeometryOf(IsoB5, 0, 0, 600) == Some(Geometry(4157, 5905, 94, 94, 3969, 5717))
  {
  }

  lemma PixelsOfEnvelopes()
    ensures GeometryOf(Env10, 0, 0, 600) == Some(Geometry(2474, 5700, 94, 94, 2286, 5512))
    ensures GeometryOf(EnvC5, 0, 0, 600) == Some(Geometry(3826, 5409, 94, 94, 3638, 5221))
    ensures GeometryOf(EnvDl, 0, 0, 600) == Some(Geometry(2598, 5196, 94, 94, 2410, 5008))
    ensures GeometryOf(EnvMonarch, 0, 0, 600) == Some(Geometry(2324, 4500, 94, 94, 2136, 4312))
  {
  }

  lemma PixelsOfOthers()
    ensures GeometryOf(Postcard, 0, 0, 600) == Some(Geometry(2362, 3496, 94, 94, 2174, 3308))
    ensures GeometryOf(DoublePostcard, 0, 0, 600) == Some(Geometry(3496, 4724, 94, 94, 3308, 4536))
    ensures GeometryOf(Fanfold, 0, 0, 600) == Some(Geometry(5100, 7800, 94, 94, 4912, 7612))
    ensures GeometryOf(Sixteen, 0, 0, 600) == Some(Geometry(4653, 6448, 94, 94, 4465, 6260))
  {
  }

  /** A custom size prints exactly from 76 by 127 to 216 by 356 millimetres. */
  lemma CustomSizesThatPrint(width: Word, length: Word, dpi: Word)
    ensures GeometryOf(Custom, width, length, dpi).Some? <==>
              dpi in {600, 1200} && 7600 <= width <= 21600 && 12700 <= length <= 35600
    ensures GeometryOf(Invalid, width, length, dpi).None?
  {
  }

  /** The printable box is not empty, and it has the same margin on all sides of the page. */
  lemma BoxIsInsidePage(name: Name, width: Word, length: Word, dpi: Word)
    ensures var g := GeometryOf(name, width, length, dpi);
            g.Some? ==>
              && 0 < g.value.left && 0 < g.value.top && 0 < g.value.printableWidth && 0 < g.value.printableHeight
              && g.value.left + g.value.printableWidth + g.value.left == g.value.width
              && g.value.top + g.value.printableHeight + g.value.top == g.value.height
  {
  }

  /** Doubling the horizontal resolution doubles the printable width, give or take one truncated pixel. */
  lemma HighResolutionIsTwice(name: Name, width: Word, length: Word)
    ensures var normal, high := GeometryOf(name, width, length, 600), GeometryOf(name, width, length, 1200);
            && (normal.Some? <==> high.Some?)
            && (normal.Some? ==>
              && high.value.printableWidth - 2 * normal.value.printableWidth in {0, 1}
              && high.value.left == 2 * normal.value.left && high.value.printableHeight == normal.value.printableHeight)
  {
  }
}
