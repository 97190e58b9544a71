# Calendar generator: layout, holiday and configuration core

This project models the computational core of `calendar_generator.py`, a
script that renders a printable monthly calendar image. It covers the
following parts:

- **Configuration tables** (`config.dfy`, module `Config`). `FONT_DEFINITIONS`
  holds the per-font padding corrections and `COLOR_PRESETS` holds the named
  colour themes. Both are constant maps, and a lookup returns `None` where
  the script would raise `KeyError`.
- **Text metrics** (`metrics.dfy`, module `Metrics`). `get_text_size_for_pil`
  turns the renderer's ink bounding box into `(width, height)`. A missing
  box becomes `(0, 0)`.
- **Dates** (`dates.dfy`, module `Dates`). This is what
  `datetime.strptime(s, '%Y-%m-%d').date()` accepts. `%Y` is four digits.
  `%m` is `1[0-2]|0[1-9]|[1-9]`. `%d` is `3[01]|[12]\d|0[1-9]|[1-9]| [1-9]`.
  The whole string must match, and the fields must name a date that exists
  in the proleptic Gregorian calendar of `datetime.date` (years 1 to 9999,
  leap years every 4 years except centuries not divisible by 400). The
  module also holds the canonical `YYYY-MM-DD` spelling used as the parser's
  partner, the weekday `date.weekday()` computes, and the Sunday-first
  column that `calendar.Calendar(firstweekday=6)` gives each weekday.
- **Holidays** (`holidays.dfy`, module `Holidays`). `fetch_holidays` takes
  the outcome of the HTTP request as an input value: either a request
  failure or the `date` fields of the returned items. The loop adds every
  item that parses and skips the others with `continue`. `is_holiday` is a
  membership test gated by the `ENABLE_HOLIDAY_COLOR` flag, which defaults
  to enabled.
- **Month layout** (`month_layout.dfy`, module `MonthLayout`). This is the
  visible part of `draw_month_calendar`. The month label is two digits,
  centred on `(MONTH_CENTER_X, MONTH_CENTER_Y)` by its measured size. Seven
  weekday-header labels follow, each with its padded text, its
  anchor-plus-stride x position and its colour. The renderer is abstract:
  `measure` maps a text to its ink box, and a draw call becomes a returned
  value.

Two behaviours of the code are worth stating:
- `fetch_holidays` absorbs only `requests.exceptions.RequestException`
  around the request and `ValueError` around each item's parse. An item
  without a `date` key raises `KeyError` out of it.
- Up to line 133 the header loop assigns each column the default colour
  and overrides it only for column 0 (Sunday).

## Model

| member | source | states |
|---|---|---|
| `Config.LookupFont` | calendar_generator.py:11-45 | a font name is found exactly when it is one of the five configured fonts; every profile found has a `ttf/…-Regular.ttf` path, 1 or 2 padding spaces, and equal non-negative header and single-digit pixel corrections; only Zen Kurenaido has a non-zero correction |
| `Config.LookupPreset` | calendar_generator.py:49-62 | a preset is found exactly when it is `black` or `white`; its Saturday and Sunday colours differ from each other and from the default, its holiday colour is its Sunday colour, and its default colour is its name |
| `Config.FontTableInvariant` | calendar_generator.py:11-45 | the font table's keys are the five fonts, every entry satisfies the profile invariant, and only Zen Kurenaido carries a pixel correction |
| `Config.PresetTableInvariant` | calendar_generator.py:49-62 | the preset table's keys are `black` and `white`, and every entry satisfies the colour invariant |
| `Metrics.TextSize` | calendar_generator.py:67-72 | a missing box gives `(0, 0)`; otherwise the left/top edge plus the width/height is the right/bottom edge |
| `Metrics.BoxFromSize` | calendar_generator.py:69-72 | a box is recovered from its top-left corner and its measured size |
| `Metrics.SizeOfPlacedBox` | calendar_generator.py:69-72 | measuring a box of a given size placed anywhere gives that size back |
| `Metrics.SizeIsTranslationInvariant` | calendar_generator.py:69-72 | moving the ink does not change the measured size |
| `Metrics.SizeIsNonNegative` | calendar_generator.py:69-72 | a missing or well-formed box never has a negative width or height |
| `Dates.DaysInMonth` | calendar_generator.py:86 | every month has 28 to 31 days, and February has 29 exactly in a leap year |
| `Dates.YearField` | calendar_generator.py:86 | `%Y` accepts a field exactly when it is four ASCII digits, and its value is the decimal number they spell (0 to 9999) |
| `Dates.MonthField` | calendar_generator.py:86 | `%m` accepts a field exactly when it is one or two digits spelling 1 to 12 (so `5` and `05` both give 5), and its value is that number |
| `Dates.DayField` | calendar_generator.py:86 | `%d` accepts a field exactly when it is one or two digits spelling 1 to 31, or a space followed by a digit 1 to 9; its value is the number spelled |
| `Dates.ParseDate` | calendar_generator.py:86 | every date the parser returns exists in the Gregorian calendar (year 1 to 9999, day within its month's length) |
| `Dates.TwoDigits` | calendar_generator.py:119 | the zero-padded two-character spelling consists of digits that read back as the number |
| `Dates.FourDigits` | calendar_generator.py:86 | the zero-padded four-character spelling consists of digits that read back as the number |
| `Dates.MonthFieldReadsTwoDigits` | calendar_generator.py:86 | `%m` reads every zero-padded month 1 to 12 back |
| `Dates.DayFieldReadsTwoDigits` | calendar_generator.py:86 | `%d` reads every zero-padded day 1 to 31 back |
| `Dates.ParseFormatRoundTrip` | calendar_generator.py:86 | parsing the `YYYY-MM-DD` spelling of any valid date returns that date |
| `Dates.ParsedCanonicalIsFormatted` | calendar_generator.py:86 | a ten-character string that parses, with no space-padded day, is the `YYYY-MM-DD` spelling of the parsed date |
| `Dates.ParseLeapDay` | calendar_generator.py:86 | `2024-02-29` parses to 29 February 2024 |
| `Dates.RejectImpossibleLeapDay` | calendar_generator.py:86-89 | `2023-02-29` is rejected |
| `Dates.ParseOneDigitFields` | calendar_generator.py:86 | one-digit month and day fields are accepted (`2024-1-5`) |
| `Dates.ParseSpacePaddedDay` | calendar_generator.py:86 | a space-padded day is accepted (`2024-01- 5`) |
| `Dates.RejectYearZero` | calendar_generator.py:86-89 | year `0000` is rejected |
| `Dates.RejectMonthThirteen` | calendar_generator.py:86-89 | month `13` is rejected |
| `Dates.RejectTrailingCharacters` | calendar_generator.py:86-89 | characters left over after the day are rejected |
| `Dates.DaysBeforeMonth` | calendar_generator.py:86 | the days before a month, summed from the month lengths, equal the common-year table (0, 31, 59, …, 334) plus one leap day after February in a leap year |
| `Dates.Weekday` | calendar_generator.py:111 | the weekday number is between 0 (Monday) and 6 (Sunday) |
| `Dates.NextDay` | calendar_generator.py:111 | the day after a valid date (other than 9999-12-31) is a valid date |
| `Dates.YearLength` | calendar_generator.py:111 | the closed form for the days before a year gives 366 days for a leap year and 365 otherwise |
| `Dates.MonthEndOrdinal` | calendar_generator.py:111 | the first of the next month has the ordinal after the last day of the month |
| `Dates.YearEndOrdinal` | calendar_generator.py:111 | 1 January of the next year has the ordinal after 31 December |
| `Dates.NextDayOrdinal` | calendar_generator.py:111 | every valid date's next day has the next ordinal |
| `Dates.FirstDayIsMonday` | calendar_generator.py:111 | 0001-01-01 has ordinal 1 and weekday 0 (Monday) |
| `Dates.Column` | calendar_generator.py:111 | in the Sunday-first week the column is `(weekday + 1) % 7`; column 0 is exactly Sunday and column 6 exactly Saturday |
| `Dates.ColumnIsInjective` | calendar_generator.py:111 | distinct weekdays get distinct columns |
| `Dates.NextDayNextColumn` | calendar_generator.py:111 | the next day of every valid date, across month and year ends, has the next weekday and sits one column further, wrapping from Saturday to Sunday |
| `Dates.January2024Columns` | calendar_generator.py:111 | 1, 6 and 7 January 2024 fall in columns 1, 6 and 0 |
| `Holidays.CollectDates` | calendar_generator.py:84-89 | every collected date is a valid calendar date |
| `Holidays.CollectedDateIsListed` | calendar_generator.py:84-89 | every collected date is the parse of some item |
| `Holidays.ListedDateIsCollected` | calendar_generator.py:84-89 | every item that parses contributes its date |
| `Holidays.CollectDatesMembership` | calendar_generator.py:84-89 | a date is collected if and only if some item parses to it |
| `Holidays.CollectDatesAppend` | calendar_generator.py:84-89 | collecting a concatenation unites the two collections |
| `Holidays.SkipsUnparsableItem` | calendar_generator.py:85-89 | an item that does not parse is skipped and the items after it are still collected |
| `Holidays.FetchHolidays` | calendar_generator.py:74-96 | a failed request returns the empty set; a successful one returns exactly the collection of the items' dates |
| `Holidays.IsHoliday` | calendar_generator.py:98-103 | a disabled flag gives false whatever the set holds; an enabled or absent flag gives membership in the set |
| `Holidays.NoHolidayAfterFailedRequest` | calendar_generator.py:94-103 | with the empty set a failed request yields, no date is a holiday under any flag |
| `Holidays.HolidayIffListed` | calendar_generator.py:84-103 | with colouring enabled, a date is a holiday exactly when some item of the response spells it |
| `MonthLayout.PaddingSpaces` | calendar_generator.py:116 | the padding has `max(count, 0)` characters, all spaces |
| `MonthLayout.MonthText` | calendar_generator.py:119 | the month text has two characters, `0` and the digit for months 1 to 9, `1` and the last digit for 10 to 12, and `%m` reads the month back |
| `MonthLayout.Centred` | calendar_generator.py:121-122 | the start coordinate plus half the extent is the anchor: `2p + extent = 2·anchor` |
| `MonthLayout.MonthLabel` | calendar_generator.py:119-123 | the month label has the month text, is centred on both axes by the measured size, and uses the default text colour |
| `MonthLayout.HeaderRow` | calendar_generator.py:126-127 | the header has seven labels |
| `MonthLayout.HeaderLabelShape` | calendar_generator.py:116-128 | each label is the font's number of spaces followed by the column's symbol, so its length is `SPACE_PADDING_COUNT + 1` |
| `MonthLayout.HeaderStride` | calendar_generator.py:129 | neighbouring header labels are exactly `COL_WIDTH` apart |
| `MonthLayout.HeaderFirstColumn` | calendar_generator.py:129 | the first label sits at `START_X_POS` plus the font's pixel correction |
| `MonthLayout.HeaderFontShift` | calendar_generator.py:129 | switching fonts moves every label by the difference of the fonts' pixel corrections |
| `MonthLayout.ZenKurenaidoHeaderShift` | calendar_generator.py:37-42 | Zen Kurenaido's header labels sit 6 pixels right of Noto Sans JP's and have the same text |
| `MonthLayout.HeaderColours` | calendar_generator.py:131-133 | column 0 is in the Sunday colour; every other column keeps the default colour |
| `MonthLayout.HeaderSymbolMatchesWeekday` | calendar_generator.py:111-126 | the symbol heading a weekday's Sunday-first column is that weekday's English initial |
| `MonthLayout.SundaysUnderSundayHeader` | calendar_generator.py:111-133 | every Sunday falls in the column headed `S` drawn in the Sunday colour |
| `MonthLayout.DrawMonthCalendar` | calendar_generator.py:107-133 | the month label is the centred default-colour label, and the header loop builds exactly the seven-label row |

## Left out

- Rendering: `font.getmask`, `draw.text` and image creation are calls into the imaging library. Measuring is the parameter `measure`, and a draw call is a returned value.
- The HTTP request: the URL built from the year, the timeout, `raise_for_status` and `response.json()`. The response is an input value, and any `RequestException` is the `RequestFailure` case.
- The diagnostics `fetch_holidays` prints are logging only.
- Holidays.FetchHolidays: response items are modelled by their `date` strings. An item without a `date` key, or with a non-string date, makes the source raise `KeyError` or `TypeError`. The source does not catch either, and the model does not represent that crash.
- Dates.ParseDate: Python's `\d` also matches non-ASCII decimal digits. The model accepts only the ASCII digits `0` to `9`.
- The JSON parsing of the embedded font table: the table is a constant map.
- Everything after line 133 of `calendar_generator.py` is not part of this model: the header's y coordinate and its draw call, the day grid, the use of the single-digit padding, and writing the output file.
- MonthLayout.HeaderRow: column 6 carries the colour assigned at line 131. A Saturday override past line 133 is not modelled.
- MonthLayout.MonthLabel: Python's float division is modelled with exact reals. IEEE rounding is not modelled.
- Holidays.IsHoliday: the flag is modelled as an optional boolean. Python's truthiness of other values is not modelled.
- How the script assembles the `definitions` dictionary from a font, a preset and layout anchors is not shown, so `MonthLayout.Definitions` is an input record.
- The rest of Python's `calendar` module is not modelled. Only the weekday-to-column rule of `firstweekday=6` is.
