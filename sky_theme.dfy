/**
 * The sky widget's theme choice: after the sunrise-sunset service answers,
 * the current time is compared with the returned sunrise and sunset and one
 * of three themes is applied. Times are Unix milliseconds, as JavaScript
 * compares Date objects; a returned time that does not parse gives a Date
 * whose time value is NaN, and every comparison with NaN is false.
 */
module SkyTheme {

  /** The time value of a Date built from a service timestamp. */
  datatype Instant = Millis(ms: int) | InvalidDate

  datatype Theme = Dawn | Dusk | Default

  /** `now < t` on Date objects. */
  predicate Before(now: int, t: Instant) {
    t.Millis? && now < t.ms
  }

  /** `now > t` on Date objects. */
  predicate After(now: int, t: Instant) {
    t.Millis? && now > t.ms
  }

  /** Before sunrise: dawn; otherwise after sunset: dusk; otherwise the default sky. */
  function ChooseTheme(now: int, sunrise: Instant, sunset: Instant): Theme {
    if Before(now, sunrise) then Dawn
    else if After(now, sunset) then Dusk
    else Default
  }

  /** Dawn exactly when the time is strictly before a valid sunrise. */
  lemma DawnIff(now: int, sunrise: Instant, sunset: Instant)
    ensures ChooseTheme(now, sunrise, sunset) == Dawn <==> sunrise.Millis? && now < sunrise.ms
  {
  }

  /** Dusk exactly when the time is not before sunrise and strictly after a valid sunset. */
  lemma DuskIff(now: int, sunrise: Instant, sunset: Instant)
    ensures ChooseTheme(now, sunrise, sunset) == Dusk
      <==> !(sunrise.Millis? && now < sunrise.ms) && sunset.Millis? && now > sunset.ms
  {
  }

  /** With both times valid, the default sky is shown exactly on the closed window [sunrise, sunset]. */
  lemma DefaultIffInWindow(now: int, sunrise: int, sunset: int)
    ensures ChooseTheme(now, Millis(sunrise), Millis(sunset)) == Default <==> sunrise <= now <= sunset
  {
  }

  /** The boundaries belong to the day: at sunrise and at sunset the default sky is shown. */
  lemma BoundariesAreDefault(sunrise: int, sunset: int)
    requires sunrise <= sunset
    ensures ChooseTheme(sunrise, Millis(sunrise), Millis(sunset)) == Default
    ensures ChooseTheme(sunset, Millis(sunrise), Millis(sunset)) == Default
  {
  }

  /** The dawn test comes first: a time both before sunrise and after sunset gets dawn. */
  lemma DawnCheckedFirst(now: int, sunrise: int, sunset: int)
    requires sunset < now < sunrise
    ensures ChooseTheme(now, Millis(sunrise), Millis(sunset)) == Dawn
  {
  }

  /** Times that do not parse never select dawn or dusk. */
  lemma InvalidTimesGiveDefault(now: int)
    ensures ChooseTheme(now, InvalidDate, InvalidDate) == Default
  {
  }
}
