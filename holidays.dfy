/** The holiday oracle: building the set of public holidays from the
    holiday service's answer, and the flag-gated holiday test. */
module Holidays {
  import opened Wrappers
  import opened Dates

  /** What the request for one year's holidays produced: a failed request
      (any request exception, including an unreadable JSON body), or the
      `date` fields of the returned items in order. */
  datatype HolidayResponse = RequestFailure | Success(dateFields: seq<string>)

  /** The dates among `items` that parse, collected as the loop of
      `fetch_holidays` collects them, one item at a time from the front. */
  function CollectDates(items: seq<string>): (r: set<Date>)
    ensures forall d | d in r :: ValidDate(d)
    decreases |items|
  {
    if items == [] then {}
    else
      var earlier := CollectDates(items[..|items| - 1]);
      match ParseDate(items[|items| - 1])
      case None => earlier
      case Some(d) => earlier + {d}
  }

  /** Every collected date is spelled by some item. */
  lemma {:induction false} CollectedDateIsListed(items: seq<string>, d: Date)
    requires d in CollectDates(items)
    ensures exists i | 0 <= i < |items| :: ParseDate(items[i]) == Some(d)
    decreases |items|
  {
    var init := items[..|items| - 1];
    if d in CollectDates(init) {
      CollectedDateIsListed(init, d);
      var i :| 0 <= i < |init| && ParseDate(init[i]) == Some(d);
      assert items[i] == init[i];
    } else {
      assert ParseDate(items[|items| - 1]) == Some(d);
    }
  }

  /** Every date some item spells is collected. */
  lemma {:induction false} ListedDateIsCollected(items: seq<string>, i: nat, d: Date)
    requires i < |items| && ParseDate(items[i]) == Some(d)
    ensures d in CollectDates(items)
    decreases |items|
  {
    var init := items[..|items| - 1];
    if i < |init| {
      assert init[i] == items[i];
      ListedDateIsCollected(init, i, d);
    }
  }

  /** A date is collected exactly when some item parses to it. */
  lemma CollectDatesMembership(items: seq<string>, d: Date)
    ensures d in CollectDates(items) <==> exists i | 0 <= i < |items| :: ParseDate(items[i]) == Some(d)
  {
    if d in CollectDates(items) {
      CollectedDateIsListed(items, d);
    }
    if exists i | 0 <= i < |items| :: ParseDate(items[i]) == Some(d) {
      var i :| 0 <= i < |items| && ParseDate(items[i]) == Some(d);
      ListedDateIsCollected(items, i, d);
    }
  }

  /** Collecting over a concatenation unites the two collections: an item
      neither hides nor depends on the items around it. */
  lemma {:induction false} CollectDatesAppend(a: seq<string>, b: seq<string>)
    ensures CollectDates(a + b) == CollectDates(a) + CollectDates(b)
    decreases |b|
  {
    if b == [] {
      assert a + b == a;
    } else {
      var initB := b[..|b| - 1];
      assert (a + b)[..|a + b| - 1] == a + initB;
      assert (a + b)[|a + b| - 1] == b[|b| - 1];
      CollectDatesAppend(a, initB);
    }
  }

  /** An item that does not parse is skipped, and the items after it are
      still collected. */
  lemma SkipsUnparsableItem(before: seq<string>, bad: string, after: seq<string>)
    requires ParseDate(bad).None?
    ensures CollectDates(before + [bad] + after) == CollectDates(before) + CollectDates(after)
  {
    CollectDatesAppend(before + [bad], after);
    CollectDatesAppend(before, [bad]);
    assert [bad][..0] == [];
  }

  /** `fetch_holidays`: a failed request yields the empty set and nothing
      escapes; otherwise every item whose `date` parses is added, and the
      others are passed over with `continue`. */
  method FetchHolidays(response: HolidayResponse) returns (holidays: set<Date>)
    ensures response.RequestFailure? ==> holidays == {}
    ensures response.Success? ==> holidays == CollectDates(response.dateFields)
  {
    holidays := {};
    match response
    case RequestFailure =>
      return {};
    case Success(items) =>
      for i := 0 to |items|
        invariant holidays == CollectDates(items[..i])
      {
        assert items[..i + 1][..i] == items[..i];
        var parsed := ParseDate(items[i]);
        if parsed.None? {
          continue;
        }
        holidays := holidays + {parsed.value};
      }
      assert items[..|items|] == items;
  }

  /** `is_holiday`: the `ENABLE_HOLIDAY_COLOR` entry of the definitions is
      `enableHolidayColor` (None when the key is absent, which counts as
      enabled). */
  function IsHoliday(checkDate: Date, holidays: set<Date>, enableHolidayColor: Option<bool>): (r: bool)
    ensures enableHolidayColor == Some(false) ==> !r
    ensures enableHolidayColor != Some(false) ==> (r <==> checkDate in holidays)
  {
    if !enableHolidayColor.GetOr(true) then false
    else checkDate in holidays
  }

  /** After a failed request no date counts as a holiday, whatever the
      flag: FetchHolidays returns the empty set for RequestFailure. */
  lemma NoHolidayAfterFailedRequest(checkDate: Date, holidays: set<Date>, enableHolidayColor: Option<bool>)
    requires holidays == {}
    ensures !IsHoliday(checkDate, holidays, enableHolidayColor)
  {
  }

  /** Only a date some item spelled can be a holiday, and with colouring
      enabled every such date is one. */
  lemma HolidayIffListed(items: seq<string>, checkDate: Date, enableHolidayColor: Option<bool>)
    requires enableHolidayColor != Some(false)
    ensures IsHoliday(checkDate, CollectDates(items), enableHolidayColor)
        <==> exists i | 0 <= i < |items| :: ParseDate(items[i]) == Some(checkDate)
  {
    CollectDatesMembership(items, checkDate);
  }
}
