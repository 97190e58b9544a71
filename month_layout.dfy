/** The visible part of `draw_month_calendar`: the centred month label and
    the seven weekday-header labels with their x positions and colours.
    The renderer is abstract: `measure` gives the ink bounding box of a
    text in the chosen font, and a draw call becomes a returned TextOp. */
module MonthLayout {
  import opened Wrappers
  import opened Config
  import opened Metrics
  import opened Dates

  /** The layout anchors of the definitions dictionary, in pixels. */
  datatype Layout = Layout(monthCenterX: int, monthCenterY: int, startXPos: int, colWidth: int)

  /** The `definitions` dictionary the drawing code reads: layout anchors,
      the chosen font profile and colour preset, and the optional
      ENABLE_HOLIDAY_COLOR flag (None when the key is absent). */
  datatype Definitions = Definitions(
    layout: Layout,
    font: FontProfile,
    colors: ColorPolicy,
    enableHolidayColor: Option<bool>)

  /** One `draw.text` call: the text, its top-left corner and its fill. */
  datatype TextOp = TextOp(text: string, x: real, y: real, color: string)

  /** A weekday-header label: its text, its x position and its colour as
      the loop body has computed them. */
  datatype HeaderCell = HeaderCell(text: string, x: int, color: string)

  /** The header symbols, Sunday first. */
  const DayNamesRaw: seq<string> := ["S", "M", "T", "W", "T", "F", "S"]

  /** The English initial of each weekday in `date.weekday()` order
      (Monday first): an independent reference for DayNamesRaw. */
  const WeekdayInitials: string := "MTWTFSS"

  /** `' ' * count`: Python repeats a string zero times for a count that is
      not positive. */
  function PaddingSpaces(count: int): (s: string)
    ensures |s| == if count <= 0 then 0 else count
    ensures forall k | 0 <= k < |s| :: s[k] == ' '
    decreases count
  {
    if count <= 0 then "" else PaddingSpaces(count - 1) + " "
  }

  /** `f"{month:02}"`: always two characters, a leading zero for months 1
      to 9, and the `%m` field of the date parser reads the month back. */
  function MonthText(month: int): (s: string)
    requires 1 <= month <= 12
    ensures |s| == 2
    ensures month <= 9 ==> s == ['0', DigitChar(month)]
    ensures month >= 10 ==> s == ['1', DigitChar(month - 10)]
    ensures MonthField(s) == Some(month)
  {
    MonthFieldReadsTwoDigits(month);
    TwoDigits(month)
  }

  /** The start coordinate that centres an extent on an anchor
      (`anchor - extent / 2` with true division). */
  function Centred(anchor: int, extent: int): (p: real)
    ensures 2.0 * p + extent as real == 2.0 * anchor as real
  {
    anchor as real - extent as real / 2.0
  }

  /** The month-label draw call: the two-digit month centred on
      (MONTH_CENTER_X, MONTH_CENTER_Y) by its measured size, in the
      default text colour. */
  function MonthLabel(month: int, defs: Definitions, measure: string -> Option<BBox>): (op: TextOp)
    requires 1 <= month <= 12
    ensures op.text == MonthText(month)
    ensures 2.0 * op.x + TextSize(measure(op.text)).0 as real == 2.0 * defs.layout.monthCenterX as real
    ensures 2.0 * op.y + TextSize(measure(op.text)).1 as real == 2.0 * defs.layout.monthCenterY as real
    ensures op.color == defs.colors.textDefault
  {
    var text := MonthText(month);
    var (w, h) := TextSize(measure(text));
    TextOp(text, Centred(defs.layout.monthCenterX, w), Centred(defs.layout.monthCenterY, h), defs.colors.textDefault)
  }

  /** Header column `i`: padded symbol, anchor-plus-stride x with the
      font's pixel correction, Sunday colour in column 0 and the default
      colour elsewhere. */
  function HeaderCellAt(defs: Definitions, i: int): HeaderCell
    requires 0 <= i < 7
  {
    HeaderCell(
      PaddingSpaces(defs.font.spacePaddingCount) + DayNamesRaw[i],
      defs.layout.startXPos + i * defs.layout.colWidth + defs.font.dayNamePaddingPixels,
      if i == 0 then defs.colors.textSunday else defs.colors.textDefault)
  }

  /** The whole header row. */
  function HeaderRow(defs: Definitions): (row: seq<HeaderCell>)
    ensures |row| == 7
  {
    seq(7, i requires 0 <= i < 7 => HeaderCellAt(defs, i))
  }

  /** Each label is the font's number of spaces followed by one symbol. */
  lemma HeaderLabelShape(defs: Definitions, i: int)
    requires 0 <= i < 7
    ensures var text := HeaderRow(defs)[i].text;
      && |text| == (if defs.font.spacePaddingCount <= 0 then 0 else defs.font.spacePaddingCount) + 1
      && (forall k | 0 <= k < |text| - 1 :: text[k] == ' ')
      && [text[|text| - 1]] == DayNamesRaw[i]
  {
    var pad := PaddingSpaces(defs.font.spacePaddingCount);
    var text := HeaderRow(defs)[i].text;
    assert text == pad + DayNamesRaw[i];
    assert forall k | 0 <= k < |text| - 1 :: text[k] == pad[k];
  }

  /** Neighbouring header columns are exactly one column width apart. */
  lemma HeaderStride(defs: Definitions, i: int)
    requires 0 <= i < 6
    ensures HeaderRow(defs)[i + 1].x == HeaderRow(defs)[i].x + defs.layout.colWidth
  {
  }

  /** The first column sits on the anchor, moved by the font's correction. */
  lemma HeaderFirstColumn(defs: Definitions)
    ensures HeaderRow(defs)[0].x == defs.layout.startXPos + defs.font.dayNamePaddingPixels
  {
  }

  /** Changing the font moves every header label by the same amount: the
      difference of the two fonts' pixel corrections. */
  lemma HeaderFontShift(d1: Definitions, d2: Definitions, i: int)
    requires d1.layout == d2.layout && 0 <= i < 7
    ensures HeaderRow(d2)[i].x - HeaderRow(d1)[i].x
         == d2.font.dayNamePaddingPixels - d1.font.dayNamePaddingPixels
  {
  }

  /** With the shipped table, Zen Kurenaido's header labels sit six pixels
      to the right of Noto Sans JP's and have the same text. */
  lemma ZenKurenaidoHeaderShift(d1: Definitions, d2: Definitions, i: int)
    requires d1.layout == d2.layout && 0 <= i < 7
    requires LookupFont("Noto Sans JP") == Some(d1.font)
    requires LookupFont("Zen Kurenaido") == Some(d2.font)
    ensures HeaderRow(d2)[i].x == HeaderRow(d1)[i].x + 6
    ensures HeaderRow(d2)[i].text == HeaderRow(d1)[i].text
  {
    HeaderFontShift(d1, d2, i);
  }

  /** Column 0 is drawn in the Sunday colour; every other column keeps the
      default colour it starts with. */
  lemma HeaderColours(defs: Definitions, i: int)
    requires 0 <= i < 7
    ensures HeaderRow(defs)[i].color == if i == 0 then defs.colors.textSunday else defs.colors.textDefault
  {
  }

  /** The Sunday-first header lines up with the week of
      `Calendar(firstweekday=6)`: the column a weekday falls in is headed by
      that weekday's initial. */
  lemma HeaderSymbolMatchesWeekday(w: int)
    requires 0 <= w < 7
    ensures DayNamesRaw[Column(w)] == [WeekdayInitials[w]]
  {
  }

  /** Any Sunday falls in the column headed `S` in the Sunday colour. */
  lemma SundaysUnderSundayHeader(defs: Definitions, d: Date)
    requires ValidDate(d) && Weekday(d) == 6
    ensures HeaderRow(defs)[Column(Weekday(d))].color == defs.colors.textSunday
    ensures DayNamesRaw[Column(Weekday(d))] == "S"
  {
  }

  /** `draw_month_calendar` up to the header colour choice: the month
      label draw call, then the header labels built one column at a time. */
  method DrawMonthCalendar(month: int, defs: Definitions, measure: string -> Option<BBox>)
    returns (monthLabel: TextOp, header: seq<HeaderCell>)
    requires 1 <= month <= 12
    ensures monthLabel == MonthLabel(month, defs, measure)
    ensures header == HeaderRow(defs)
  {
    var paddingSpaces := PaddingSpaces(defs.font.spacePaddingCount);

    var monthText := MonthText(month);
    var (textWidth, textHeight) := TextSize(measure(monthText));
    var monthX := defs.layout.monthCenterX as real - textWidth as real / 2.0;
    var monthY := defs.layout.monthCenterY as real - textHeight as real / 2.0;
    monthLabel := TextOp(monthText, monthX, monthY, defs.colors.textDefault);

    header := [];
    for i := 0 to |DayNamesRaw|
      invariant header == HeaderRow(defs)[..i]
    {
      var dayName := paddingSpaces + DayNamesRaw[i];
      var dayX := defs.layout.startXPos + i * defs.layout.colWidth + defs.font.dayNamePaddingPixels;
      var dayColor := defs.colors.textDefault;
      if i == 0 {
        dayColor := defs.colors.textSunday;
      }
      header := header + [HeaderCell(dayName, dayX, dayColor)];
    }
  }
}
