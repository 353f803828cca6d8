/** The events table's derived cells: the sport badge and the date range. */
module EventColumns {
  import opened Common
  import opened Entities

  /** The sport badge: the sport's name, or 'Unknown'. */
  function SportLabel(sport: Option<Sport>): (badge: string)
    ensures sport.Some? && sport.value.name != "" ==> badge == sport.value.name
    ensures !(sport.Some? && sport.value.name != "") ==> badge == "Unknown"
  {
    SportNameOr(sport, "Unknown")
  }

  /** The text shown for the start: the formatted date, or '—' without one. */
  function StartText(startDate: string, format: string -> string): string
  {
    if startDate != "" then format(startDate) else "—"
  }

  /** The text shown for the end: the formatted date, or nothing without one. */
  function EndText(endDate: Option<string>, format: string -> string): string
  {
    if Truthy(endDate) then format(endDate.value) else ""
  }

  /** The date cell: `start - end` when there is end text, otherwise just the start.
      `format` is the browser's `toLocaleDateString` of the parsed date. */
  function DateCell(startDate: string, endDate: Option<string>, format: string -> string): (cell: string)
    ensures StartText(startDate, format) <= cell
    ensures startDate == "" ==> |cell| >= 1 && cell[0] == '—'
    ensures !Truthy(endDate) ==> cell == StartText(startDate, format)
    ensures Truthy(endDate) && format(endDate.value) != "" ==>
              cell == StartText(startDate, format) + " - " + format(endDate.value)
  {
    var start, end := StartText(startDate, format), EndText(endDate, format);
    if end != "" then start + " - " + end else start
  }
}
