/**
 * The part of the `moment` library the plugin relies on.
 *
 * A moment is `Option<ValidMoment>`: `None` is an invalid moment (what
 * `moment(null)` or an unparseable text gives), `Some(m)` a valid one. Its date
 * part is an abstract day number, so the hour and minute setters carry into the
 * date the way JavaScript's `Date.prototype.setHours`/`setMinutes` do. Parsing,
 * ISO serialisation and the locale formats are not modelled: they are the
 * fields of a `MomentLib`, and every result below holds for any of them.
 */
module Moments {
  import opened Wrappers

  datatype Moment = Moment(day: int, hour: int, minute: int, second: int, millisecond: int) {
    predicate WellFormed() {
      0 <= hour < 24 && 0 <= minute < 60 && 0 <= second < 60 && 0 <= millisecond < 1000
    }
  }

  type ValidMoment = m: Moment | m.WellFormed() witness Moment(0, 0, 0, 0, 0)

  datatype MomentLib = MomentLib(
    parse: string -> Option<ValidMoment>,  // moment(s)
    iso: ValidMoment -> string,            // m.toISOString()
    longDate: ValidMoment -> string,       // m.format('LL')
    longDateTime: ValidMoment -> string,   // m.format('LL, LT')
    calendarDate: ValidMoment -> string)   // m.format('YYYY-MM-DD')

  /** Parsing what the library serialised gives the same moment back. */
  ghost predicate RoundTrips(lib: MomentLib) {
    forall m: ValidMoment :: lib.parse(lib.iso(m)) == Some(m)
  }

  /** `toISOString` always yields a full timestamp (`YYYY-MM-DDTHH:mm:ss.sssZ` or longer). */
  ghost predicate IsoIsTimestamp(lib: MomentLib) {
    forall m: ValidMoment :: |lib.iso(m)| >= 24
  }

  /** `moment(raw)`, where `null` gives an invalid moment. */
  function ParseRaw(lib: MomentLib, raw: Option<string>): Option<ValidMoment> {
    if raw.None? then None else lib.parse(raw.value)
  }

  /** `m.toISOString()`, which is `null` for an invalid moment. */
  function ToIsoString(lib: MomentLib, m: Option<ValidMoment>): (r: Option<string>)
    ensures r.Some? <==> m.Some?
  {
    if m.None? then None else Some(lib.iso(m.value))
  }

  /** `m.format(...)` with one of the library's formats; an invalid moment renders as "Invalid date". */
  function Format(f: ValidMoment -> string, m: Option<ValidMoment>): string {
    if m.None? then "Invalid date" else f(m.value)
  }

  /** Setting the hour field to `h`, with overflow carried into the day. */
  function WithHour(m: ValidMoment, h: int): (r: ValidMoment)
    ensures r.minute == m.minute && r.second == m.second && r.millisecond == m.millisecond
    ensures r.day * 24 + r.hour == m.day * 24 + h
    ensures 0 <= h < 24 ==> r == m.(hour := h)
  {
    Moment(m.day + h / 24, h % 24, m.minute, m.second, m.millisecond)
  }

  /** Setting the minute field to `mi`, with overflow carried into the hour and the day. */
  function WithMinute(m: ValidMoment, mi: int): (r: ValidMoment)
    ensures r.second == m.second && r.millisecond == m.millisecond
    ensures (r.day * 24 + r.hour) * 60 + r.minute == (m.day * 24 + m.hour) * 60 + mi
    ensures 0 <= mi < 60 ==> r == m.(minute := mi)
  {
    var hours := m.hour + mi / 60;
    Moment(m.day + hours / 24, hours % 24, mi % 60, m.second, m.millisecond)
  }

  /**
   * `m.hours(n)`, where `n` is the argument after numeric coercion (`None` is
   * `NaN`): an invalid moment stays invalid and a `NaN` argument is ignored.
   */
  function SetHour(m: Option<ValidMoment>, n: Option<int>): Option<ValidMoment> {
    if m.None? || n.None? then m else Some(WithHour(m.value, n.value))
  }

  /** `m.minutes(n)`, with the same conventions as `SetHour`. */
  function SetMinute(m: Option<ValidMoment>, n: Option<int>): Option<ValidMoment> {
    if m.None? || n.None? then m else Some(WithMinute(m.value, n.value))
  }

  /** Setting a field to the value it already has leaves a moment unchanged. */
  lemma SetOwnFields(m: ValidMoment)
    ensures SetMinute(SetHour(Some(m), Some(m.hour)), Some(m.minute)) == Some(m)
  {
  }
}
