/**
 * The decision logic of the date picker's calendar header: which view the
 * month/year title switches to, the aria-label of the view switcher, and
 * the month a previous/next arrow click requests.
 *
 * The header itself holds no state. The active view and the displayed
 * month belong to the host, which passes them in as `view` and
 * `currentMonth` and receives the requested changes through the
 * `changeView` and `onMonthChange` callbacks. Each handler is modelled as
 * a function from its inputs to the value it hands to its callback.
 */
module CalendarHeader {
  import opened Wrappers
  import opened ArraySearch

  // ---------------------------------------------------------------------
  // Switching between views
  // ---------------------------------------------------------------------

  /**
   * `toggleView`: the view handed to `changeView` when the title is clicked,
   * or `None` when `changeView` is not called.
   *
   * With a single view nothing happens. With two views the title flips to
   * the first entry that differs from the current view, falling back to the
   * first entry (a view name is a non-empty string, so `find`'s result is
   * only replaced by `views[0]` when `find` found nothing). With three or
   * more views only the first two entries take part: the first view leads to
   * the second, every other view (including one absent from `views`) leads
   * to the first.
   */
  function ToggleView<V(==)>(views: seq<V>, currentView: V): (next: Option<V>)
    requires |views| >= 1
    ensures next.Some? <==> |views| >= 2
    ensures next.Some? ==> next.value in views
    ensures next.Some? ==> next.value == views[0] || next.value == views[1]
  {
    if |views| == 1 then None
    else if |views| == 2 then
      Some(Find(views, view => view != currentView).GetOr(views[0]))
    else
      var nextIndexToOpen := if IndexOf(views, currentView) != 0 then 0 else 1;
      Some(views[nextIndexToOpen])
  }

  /** The active view once the host has applied the outcome of one toggle. */
  function ViewAfterToggle<V(==)>(views: seq<V>, currentView: V): (v: V)
    requires |views| >= 1
    ensures |views| == 1 ==> v == currentView
    ensures |views| >= 2 ==> v == views[0] || v == views[1]
  {
    ToggleView(views, currentView).GetOr(currentView)
  }

  /** The active view after `n` consecutive toggles starting from `start`. */
  function ViewAfterToggles<V(==)>(views: seq<V>, start: V, n: nat): V
    requires |views| >= 1
  {
    if n == 0 then start else ViewAfterToggle(views, ViewAfterToggles(views, start, n - 1))
  }

  /**
   * Two views: toggling requests `views[1]` exactly when the current view
   * is `views[0]` and `views[1]` differs from it; otherwise `views[0]`,
   * either as the first entry that differs or as the fallback.
   */
  lemma ToggleTwoViews<V>(views: seq<V>, currentView: V)
    requires |views| == 2
    ensures ToggleView(views, currentView)
         == Some(if currentView == views[0] && views[1] != currentView then views[1] else views[0])
  {
    var p := (view: V) => view != currentView;
    if currentView != views[0] {
      assert p(views[0]) && FirstMatchAt(views, p, 0);
    } else if views[1] != currentView {
      assert !p(views[0]) && p(views[1]);
    } else {
      assert forall j :: 0 <= j < |views| ==> !p(views[j]);
    }
  }

  /**
   * Two distinct views with the current view among them: toggling selects
   * the other one, and toggling again returns to the start.
   */
  lemma ToggleTwoViewsFlips<V>(views: seq<V>, currentView: V)
    requires |views| == 2 && views[0] != views[1]
    requires currentView in views
    ensures ToggleView(views, currentView).Some?
    ensures ToggleView(views, currentView).value in views
    ensures ToggleView(views, currentView).value != currentView
    ensures ViewAfterToggle(views, ViewAfterToggle(views, currentView)) == currentView
  {
    ToggleTwoViews(views, currentView);
    ToggleTwoViews(views, ViewAfterToggle(views, currentView));
  }

  /**
   * Three or more views: the first view leads to the second, any other
   * view (at index 2 or later, or not in `views` at all) leads to the first.
   */
  lemma ToggleManyViews<V>(views: seq<V>, currentView: V)
    requires |views| >= 3
    ensures ToggleView(views, currentView)
         == Some(if currentView == views[0] then views[1] else views[0])
  {
    var i := IndexOf(views, currentView);
    if currentView == views[0] {
      assert i != -1;
    }
  }

  /**
   * After the first toggle the active view is always one of the first two
   * entries; with `views[0] != views[1]` every later toggle moves to the
   * other of the two, so the views alternate with period two.
   */
  lemma TogglesStayInFirstTwo<V>(views: seq<V>, start: V, n: nat)
    requires |views| >= 2
    requires n >= 1
    ensures ViewAfterToggles(views, start, n) in {views[0], views[1]}
    ensures views[0] != views[1] ==>
              ViewAfterToggles(views, start, n + 1) != ViewAfterToggles(views, start, n)
    ensures views[0] != views[1] ==>
              ViewAfterToggles(views, start, n + 2) == ViewAfterToggles(views, start, n)
  {
    var v := ViewAfterToggles(views, start, n);
    var w := ViewAfterToggle(views, v);
    if views[0] != views[1] {
      assert v == views[0] || v == views[1];
      if |views| == 2 {
        ToggleTwoViewsFlips(views, v);
        ToggleTwoViewsFlips(views, w);
      } else {
        ToggleManyViews(views, v);
        ToggleManyViews(views, w);
      }
    }
  }

  /**
   * With three or more views, repeated entries allowed, no sequence of
   * toggles that starts with at least one toggle reaches a view whose first
   * index is 2 or later.
   */
  lemma TogglesNeverPassIndexOne<V>(views: seq<V>, start: V, n: nat)
    requires |views| >= 3
    requires n >= 1
    ensures 0 <= IndexOf(views, ViewAfterToggles(views, start, n)) <= 1
  {
    TogglesStayInFirstTwo(views, start, n);
  }

  // ---------------------------------------------------------------------
  // The view switcher's aria-label
  // ---------------------------------------------------------------------

  /** The calendar views a date picker can show. */
  datatype View = Year | Month | Date

  const YearViewOpenText: string := "year view is open, switch to calendar view"
  const CalendarViewOpenText: string := "calendar view is open, switch to year view"

  /**
   * `getSwitchingViewAriaText`: the year view announces that the switch
   * leads to the calendar, every other view that it leads to the year view.
   */
  function SwitchingViewAriaText(view: View): (text: string)
    ensures text == YearViewOpenText <==> view == Year
    ensures text == CalendarViewOpenText <==> view != Year
  {
    if view == Year then YearViewOpenText else CalendarViewOpenText
  }

  /**
   * The `getViewSwitchingButtonText` in effect: the host's override when it
   * gives one, `SwitchingViewAriaText` otherwise.
   */
  function ViewSwitchingButtonText(getText: Option<View -> string>, view: View): (text: string)
    ensures getText.Some? ==> text == getText.value(view)
    ensures getText.None? ==> (text == YearViewOpenText <==> view == Year)
    ensures getText.None? ==> (text == CalendarViewOpenText <==> view != Year)
  {
    match getText
    case Some(f) => f(view)
    case None => SwitchingViewAriaText(view)
  }

  /**
   * The aria-label of the view switcher icon, which is rendered only when
   * there is more than one view; `None` when the icon is absent.
   */
  function SwitcherAriaLabel(views: seq<View>, currentView: View, getText: Option<View -> string>): (ariaLabel: Option<string>)
    ensures ariaLabel.Some? <==> |views| > 1
    ensures ariaLabel.Some? ==> ariaLabel.value == ViewSwitchingButtonText(getText, currentView)
  {
    if |views| > 1 then Some(ViewSwitchingButtonText(getText, currentView)) else None
  }

  /**
   * When the year view is one of the first two, distinct, views and the
   * current view is one of them too, the default label tells the truth: it
   * says "switch to year view" exactly when a toggle opens the year view.
   */
  lemma DefaultLabelNamesToggleTarget(views: seq<View>, currentView: View)
    requires |views| >= 2 && views[0] != views[1]
    requires Year == views[0] || Year == views[1]
    requires currentView == views[0] || currentView == views[1]
    ensures SwitcherAriaLabel(views, currentView, None).Some?
    ensures SwitcherAriaLabel(views, currentView, None).value == CalendarViewOpenText
            <==> ToggleView(views, currentView) == Some(Year)
  {
    if |views| == 2 {
      ToggleTwoViews(views, currentView);
    } else {
      ToggleManyViews(views, currentView);
    }
  }

  // ---------------------------------------------------------------------
  // Stepping the displayed month
  // ---------------------------------------------------------------------

  /** The hint for the month transition: which way the old month slides out. */
  datatype SlideDirection = Left | Right

  /** The date library's month arithmetic, left uninterpreted. */
  datatype DateUtils<!TDate> = DateUtils(getNextMonth: TDate -> TDate, getPreviousMonth: TDate -> TDate)

  /** The arguments handed to `onMonthChange`. */
  datatype MonthChange<TDate> = MonthChange(date: TDate, slideDirection: SlideDirection)

  /** `selectNextMonth`: the following month, sliding left. No bound is checked. */
  function SelectNextMonth<TDate>(utils: DateUtils<TDate>, month: TDate): (change: MonthChange<TDate>)
    ensures change.date == utils.getNextMonth(month)
    ensures change.slideDirection == Left
  {
    MonthChange(utils.getNextMonth(month), Left)
  }

  /** `selectPreviousMonth`: the preceding month, sliding right. No bound is checked. */
  function SelectPreviousMonth<TDate>(utils: DateUtils<TDate>, month: TDate): (change: MonthChange<TDate>)
    ensures change.date == utils.getPreviousMonth(month)
    ensures change.slideDirection == Right
  {
    MonthChange(utils.getPreviousMonth(month), Right)
  }

  /** The two arrows of the header's arrow switchers. */
  datatype Arrow = LeftArrow | RightArrow

  /**
   * The change an arrow click requests: the left arrow goes back a month,
   * the right arrow forward, and the content always slides away from the
   * arrow that was clicked.
   */
  function ArrowClick<TDate>(utils: DateUtils<TDate>, month: TDate, arrow: Arrow): (change: MonthChange<TDate>)
    ensures arrow == LeftArrow ==> change.date == utils.getPreviousMonth(month)
    ensures arrow == RightArrow ==> change.date == utils.getNextMonth(month)
    ensures change.slideDirection == Left <==> arrow == RightArrow
  {
    match arrow
    case LeftArrow => SelectPreviousMonth(utils, month)
    case RightArrow => SelectNextMonth(utils, month)
  }

  /**
   * For a displayed month (a first-of-month date) that the date library's
   * previous month maps back to from its next month, a click on the right
   * arrow followed by one on the left arrow returns to that month, the two
   * transitions sliding in opposite directions.
   */
  lemma NextThenPreviousReturns<TDate>(utils: DateUtils<TDate>, month: TDate)
    requires utils.getPreviousMonth(utils.getNextMonth(month)) == month
    ensures ArrowClick(utils, ArrowClick(utils, month, RightArrow).date, LeftArrow).date == month
    ensures ArrowClick(utils, month, RightArrow).slideDirection
         != ArrowClick(utils, ArrowClick(utils, month, RightArrow).date, LeftArrow).slideDirection
  {
  }
}
