/**
 * How the chosen theme reaches the page. main.js writes the CSS custom
 * property `--sky-gradient` on the body's inline style; the stylesheet (not
 * part of this model) is taken to declare `--sky-gradient`, `--dawn-gradient`
 * and `--dusk-gradient` at the root, and the body's background to use
 * `var(--sky-gradient)`.
 *
 * A custom property's `var()` reference is resolved on the element that
 * declares it; a property that depends on itself is in a cycle and is
 * invalid at computed-value time (CSS Custom Properties for Cascading
 * Variables Level 1, section 2.3). A property that the body does not declare
 * is inherited from the root.
 */
module SkyStyle {
  import opened Wrappers
  import opened SkyTheme

  const SkyGradient: string := "--sky-gradient"
  const DawnGradient: string := "--dawn-gradient"
  const DuskGradient: string := "--dusk-gradient"

  /** A custom property value: literal text, or `var(--name)`. */
  datatype CssValue = Literal(text: string) | VarRef(name: string)

  /**
   * The computed value of custom property `name` on the body, given the
   * body's inline declarations and the root's (literal) values. `seen` holds
   * the body properties already being resolved; meeting one again is a cycle.
   * None is the guaranteed-invalid value.
   */
  function Resolve(name: string, inline: map<string, CssValue>, root: map<string, string>, seen: set<string>): (v: Option<string>)
    ensures name !in inline && name !in seen ==> v == (if name in root then Some(root[name]) else None)
    decreases inline.Keys - seen
  {
    if name in seen then None
    else if name in inline then
      match inline[name]
      case Literal(text) => Some(text)
      case VarRef(other) => Resolve(other, inline, root, seen + {name})
    else if name in root then Some(root[name])
    else None
  }

  /** The value the body's background receives from `var(--sky-gradient)`. */
  function BodyGradient(inline: map<string, CssValue>, root: map<string, string>): Option<string> {
    Resolve(SkyGradient, inline, root, {})
  }

  /** The gradient each theme is meant to show. */
  function GradientName(t: Theme): string {
    match t
    case Dawn => DawnGradient
    case Dusk => DuskGradient
    case Default => SkyGradient
  }

  /** The value main.js writes to `--sky-gradient` for each theme. */
  function WrittenValue(t: Theme): CssValue {
    match t
    case Dawn => VarRef(DawnGradient)
    case Dusk => VarRef(DuskGradient)
    case Default => VarRef(SkyGradient)
  }

  /** `document.body.style.setProperty('--sky-gradient', …)` as main.js writes it. */
  function ApplyThemeAsWritten(inline: map<string, CssValue>, t: Theme): map<string, CssValue> {
    inline[SkyGradient := WrittenValue(t)]
  }

  /**
   * As written, the default branch makes `--sky-gradient` refer to itself:
   * whatever the stylesheet declares, the body's gradient becomes invalid.
   */
  lemma AsWrittenDefaultIsInvalid(inline: map<string, CssValue>, root: map<string, string>)
    ensures BodyGradient(ApplyThemeAsWritten(inline, Default), root) == None
  {
    var m := ApplyThemeAsWritten(inline, Default);
    assert m[SkyGradient] == VarRef(SkyGradient);
    assert {} + {SkyGradient} == {SkyGradient};
    assert Resolve(SkyGradient, m, root, {SkyGradient}) == None;
  }

  /** The corrected write: dawn and dusk as before; the default removes the inline override. */
  function ApplyTheme(inline: map<string, CssValue>, t: Theme): (m: map<string, CssValue>)
    ensures t != Default ==> m == ApplyThemeAsWritten(inline, t)
    ensures t == Default ==> SkyGradient !in m
    ensures t == Default ==> forall k :: k != SkyGradient ==> (k in m <==> k in inline) && (k in m ==> m[k] == inline[k])
  {
    match t
    case Default => inline - {SkyGradient}
    case _ => inline[SkyGradient := VarRef(GradientName(t))]
  }

  /**
   * With the correction every theme shows its gradient from the stylesheet,
   * whatever was written inline before (as long as the page never declares
   * the dawn or dusk gradients inline).
   */
  lemma ThemeShowsItsGradient(inline: map<string, CssValue>, root: map<string, string>, t: Theme)
    requires DawnGradient !in inline && DuskGradient !in inline
    requires GradientName(t) in root
    ensures BodyGradient(ApplyTheme(inline, t), root) == Some(root[GradientName(t)])
  {
    var m := ApplyTheme(inline, t);
    assert DawnGradient != SkyGradient && DuskGradient != SkyGradient by {
      assert |DawnGradient| != |SkyGradient| && |DuskGradient| != |SkyGradient|;
    }
    if t != Default {
      assert GradientName(t) !in m;
      assert Resolve(GradientName(t), m, root, {SkyGradient}) == Some(root[GradientName(t)]);
    }
  }

  /** One refresh of the sky widget: choose the theme, then write it (corrected). */
  function RefreshSky(inline: map<string, CssValue>, now: int, sunrise: Instant, sunset: Instant): map<string, CssValue> {
    ApplyTheme(inline, ChooseTheme(now, sunrise, sunset))
  }

  /** During the day (between valid sunrise and sunset) a refresh shows the stylesheet's default sky. */
  lemma DaytimeRefreshShowsSky(inline: map<string, CssValue>, root: map<string, string>, now: int, sunrise: int, sunset: int)
    requires sunrise <= now <= sunset
    requires SkyGradient in root
    ensures BodyGradient(RefreshSky(inline, now, Millis(sunrise), Millis(sunset)), root) == Some(root[SkyGradient])
  {
    DefaultIffInWindow(now, sunrise, sunset);
    assert SkyGradient !in RefreshSky(inline, now, Millis(sunrise), Millis(sunset));
  }
}
