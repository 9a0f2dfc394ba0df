/**
 * The JavaScript runtime facilities the core calls but does not define.
 * They are passed around as one record of functions so that every model
 * function states exactly which of them it depends on.
 */
module Platform {
  import opened Wrappers
  import opened JsString

  /** A local calendar date as a `Date` object reports it: full year, zero-based month, day of month. */
  datatype CalendarDate = CalendarDate(year: int, monthIndex: int, day: int)

  /** The option sets passed to `toLocaleDateString`. */
  datatype LocaleStyle = DefaultStyle | LongDate | ShortDate

  datatype Runtime = Runtime(
    /** `Number(s)`; `None` stands for NaN. */
    parseNumber: string -> Option<real>,
    /** `new Date(s).getTime()` in milliseconds; `None` for an invalid date. */
    dateTime: string -> Option<int>,
    /** `getFullYear()`, `getMonth()`, `getDate()` of the instant, in the device's time zone. */
    localCalendar: int -> CalendarDate,
    /** `toLocaleDateString` of an instant with the given options. */
    localeDateString: (int, LocaleStyle) -> string,
    /** `String(x)` for a number. */
    numberToString: real -> string)

  /** `Number` reads a plain string of decimal digits as its decimal value (true of every JS engine). */
  ghost predicate ParsesDecimalDigits(rt: Runtime) {
    forall s :: AllDigits(s) && s != "" ==> rt.parseNumber(s) == Some(DigitsValue(s) as real)
  }
}
