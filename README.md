# Calendar header decision logic

A Dafny model of the logic inside the calendar header of a date picker
(`lib/src/views/Calendar/CalendarHeader.tsx`). The header shows the displayed
month, two arrow switchers for the previous and next month, and a title
button that switches between calendar views (year grid, month grid, day
grid). It keeps no state: the host passes in the active `view`, the list of
`views` and the `currentMonth`, and receives requested changes through
the `changeView` and `onMonthChange` callbacks.

The model has three modules:

- `Wrappers`: an `Option` type. `None` stands for "callback not called" or
  for JavaScript's `undefined`.
- `ArraySearch`: JavaScript's `Array.prototype.find` (via `FindIndex`) and
  `Array.prototype.indexOf`. Both are recursive functions specified by the
  element they locate.
- `CalendarHeader`: each handler becomes a pure function that returns the
  value the handler passes to its callback:
  - `toggleView` becomes `ToggleView`, with lemmas for each branch, for
    the two-view round trip and for repeated toggling;
  - the aria-label chooser and its default wiring;
  - the month-step handlers, over an uninterpreted date library.

`ToggleView` is generic over any type with equality. The source compares
views only with `!==` and `indexOf`. Modelling `find(...) || views[0]` as
"the found view, or `views[0]` when none is found" relies on every
`DatePickerView` being a non-empty, hence truthy, string: for a falsy view
value JavaScript's `||` would replace a found view with `views[0]`. The aria-label functions use
`View = Year | Month | Date`, which stands for the string union
`'year' | 'month' | 'date'` of `DatePickerView`. Only `Year` is
distinguished there. The module `lib/src/DatePicker` that defines the union
is not part of this model.

With three or more views, a current view absent from `views` toggles to
`views[0]`: `indexOf` gives -1, which is `!== 0` (line 136); see
`ToggleManyViews`.

## Model

| member | source | states |
|---|---|---|
| `ArraySearch.FindIndex` | lib/src/views/Calendar/CalendarHeader.tsx:133 | `find` stops at the first element satisfying the predicate: the index is -1 exactly when no element satisfies it, and otherwise the element there satisfies it and none before it does |
| `ArraySearch.Find` | lib/src/views/Calendar/CalendarHeader.tsx:133 | `find` returns `undefined` exactly when no element satisfies the predicate, and otherwise an element of the array that satisfies it and is preceded by none that does |
| `ArraySearch.IndexOf` | lib/src/views/Calendar/CalendarHeader.tsx:136 | `indexOf` is -1 exactly when the value is absent, and otherwise the index of its first occurrence |
| `ArraySearch.IndexOfDistinct` | lib/src/views/Calendar/CalendarHeader.tsx:136 | in an array without duplicates `indexOf(views[i]) == i` |
| `CalendarHeader.ToggleView` | lib/src/views/Calendar/CalendarHeader.tsx:127-139 | `changeView` is called exactly when there are at least two views (one view: no call), and the view it receives is one of `views[0]`, `views[1]`; `views` is an input value and is not changed |
| `CalendarHeader.ToggleTwoViews` | lib/src/views/Calendar/CalendarHeader.tsx:132-133 | two views: the result is `views[1]` when the current view is `views[0]` and `views[1]` differs from it, and `views[0]` otherwise (found by `find`, or by the fallback to `views[0]` when both entries equal the current view) |
| `CalendarHeader.ToggleTwoViewsFlips` | lib/src/views/Calendar/CalendarHeader.tsx:132-133 | two distinct views with the current view among them: toggling selects the other view, and toggling twice returns to the start |
| `CalendarHeader.ToggleManyViews` | lib/src/views/Calendar/CalendarHeader.tsx:134-137 | three or more views: `views[0]` leads to `views[1]`; every other view, including views at index 2 or later and views not in the list, leads to `views[0]` |
| `CalendarHeader.ViewAfterToggle` | lib/src/views/Calendar/CalendarHeader.tsx:127-139 | the active view after the host applies one toggle: unchanged with one view, otherwise `views[0]` or `views[1]` |
| `CalendarHeader.TogglesStayInFirstTwo` | lib/src/views/Calendar/CalendarHeader.tsx:132-137 | from any start, after one or more toggles the active view is `views[0]` or `views[1]`; when those differ, each later toggle moves to the other one, with period two |
| `CalendarHeader.TogglesNeverPassIndexOne` | lib/src/views/Calendar/CalendarHeader.tsx:134-137 | three or more views, repeated entries allowed: after one or more toggles the active view's index is 0 or 1, never 2 or more |
| `CalendarHeader.SwitchingViewAriaText` | lib/src/views/Calendar/CalendarHeader.tsx:92-96 | the default text is "year view is open, switch to calendar view" exactly for the year view and "calendar view is open, switch to year view" exactly for every other view |
| `CalendarHeader.ViewSwitchingButtonText` | lib/src/views/Calendar/CalendarHeader.tsx:115 | a `getViewSwitchingButtonText` supplied by the host decides the text; without one, the default chooser above applies |
| `CalendarHeader.SwitcherAriaLabel` | lib/src/views/Calendar/CalendarHeader.tsx:175-179 | the view switcher and its aria-label are present exactly when there is more than one view, and the label is the button text for the current view |
| `CalendarHeader.DefaultLabelNamesToggleTarget` | lib/src/views/Calendar/CalendarHeader.tsx:92-96 | when the year view and the current view are among the first two distinct views, the default label says "switch to year view" exactly when the toggle opens the year view |
| `CalendarHeader.SelectNextMonth` | lib/src/views/Calendar/CalendarHeader.tsx:121 | "next" hands `getNextMonth(month)` with slide direction `'left'` to `onMonthChange`, for every month (no bound is checked) |
| `CalendarHeader.SelectPreviousMonth` | lib/src/views/Calendar/CalendarHeader.tsx:122 | "previous" hands `getPreviousMonth(month)` with slide direction `'right'` to `onMonthChange`, for every month (no bound is checked) |
| `CalendarHeader.ArrowClick` | lib/src/views/Calendar/CalendarHeader.tsx:152-153 | the left arrow steps back and the right arrow steps forward, and the content slides left exactly when the right arrow is clicked |
| `CalendarHeader.NextThenPreviousReturns` | lib/src/views/Calendar/CalendarHeader.tsx:121-122 | for a displayed (first-of-month) date whose next month the date library's previous month maps back to it, a right click and then a left click return to that date, with opposite slide directions |

## Left out

- `CalendarHeader.ToggleView` requires at least one view. With an empty `views`, the source would pass `undefined` to `changeView`.
- The disabled state of the arrows (`useNextMonthDisabled` and `usePreviousMonthDisabled`, lines 13-16 and 124-125). Their module `_shared/hooks/date-helpers-hooks` is not part of this model. The min/max date, `disablePast` and `disableFuture` bounds logic lives there.
- The date library (`useUtils`): `getNextMonth` and `getPreviousMonth` are uninterpreted functions supplied as `DateUtils`. `format(month, 'month' | 'year')` produces display text only.
- Rendering: JSX layout, `makeStyles` styles, the `clsx` rotation of the dropdown icon for the year view, `propTypes`, and the default arrow button texts. These are presentational.
- The `ArrowSwitcher` and `ArrowDropDownIcon` components, whose code is not part of this model. Only the wiring of their click handlers to the two month steps is modelled, by `ArrowClick`.
- The callbacks `changeView` and `onMonthChange` are not called. Each handler is modelled by the value it would pass to its callback.
