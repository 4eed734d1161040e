/** The part of the shared QR store (src/stores/qrStore, which is not part of
    this model) that the template and history screens read and write, and
    the style JSON they exchange with the back end. A style JSON text is
    represented by what `JSON.parse` makes of it. */
module StyleStore {
  import opened Wrappers

  /** A gradient or logo object. Its fields are never looked at here; the
      object is kept as its JSON text. */
  datatype Gradient = Gradient(json: string)
  datatype Logo = Logo(json: string)

  /** The style fields of the store that a template records. */
  datatype Style = Style(
    dotStyle: string,
    cornerSquareStyle: string,
    cornerDotStyle: string,
    foreground: string,
    background: string,
    transparentBg: bool,
    useGradient: bool,
    gradient: Option<Gradient>,
    logo: Option<Logo>,
    errorCorrection: string)

  /** A parsed style object: each key is either missing (or `null`, which the
      screens treat alike for strings and objects) or holds a value. */
  datatype StyleJson = StyleJson(
    dotStyle: Option<string>,
    cornerSquareStyle: Option<string>,
    cornerDotStyle: Option<string>,
    foreground: Option<string>,
    background: Option<string>,
    transparentBg: Option<bool>,
    useGradient: Option<bool>,
    gradient: Option<Gradient>,
    logo: Option<Logo>,
    errorCorrection: Option<string>)

  /** `JSON.parse(styleJson)`: it throws, or yields a style object. */
  datatype JsonDoc = Unparsable | Parsed(json: StyleJson)

  /** JavaScript truthiness of an optional string: present and non-empty. */
  predicate Truthy(s: Option<string>) {
    s.Some? && s.value != ""
  }

  /** `JSON.stringify` of the ten store fields, read back: every field is
      present except an unset gradient or logo, which `JSON.stringify`
      leaves out. */
  function Serialize(s: Style): (j: StyleJson)
    ensures j.dotStyle == Some(s.dotStyle) && j.cornerSquareStyle == Some(s.cornerSquareStyle)
    ensures j.cornerDotStyle == Some(s.cornerDotStyle) && j.errorCorrection == Some(s.errorCorrection)
    ensures j.foreground == Some(s.foreground) && j.background == Some(s.background)
    ensures j.transparentBg == Some(s.transparentBg) && j.useGradient == Some(s.useGradient)
    ensures j.gradient == s.gradient && j.logo == s.logo
  {
    StyleJson(Some(s.dotStyle), Some(s.cornerSquareStyle), Some(s.cornerDotStyle),
      Some(s.foreground), Some(s.background), Some(s.transparentBg), Some(s.useGradient),
      s.gradient, s.logo, Some(s.errorCorrection))
  }

  /** `if (value) set(value)` for a string field. */
  function IfTruthy(current: string, value: Option<string>): (r: string)
    ensures Truthy(value) ==> r == value.value
    ensures !Truthy(value) ==> r == current
  {
    if Truthy(value) then value.value else current
  }

  /** `if (value) set(value)` for an object field: a present object is truthy. */
  function IfPresent<T>(current: Option<T>, value: Option<T>): (r: Option<T>)
    ensures value.Some? ==> r == value
    ensures value.None? ==> r == current
  {
    if value.Some? then value else current
  }

  /** `if (value !== undefined) set(value)` for a boolean field. */
  function IfDefined(current: bool, value: Option<bool>): (r: bool)
    ensures value.Some? ==> r == value.value
    ensures value.None? ==> r == current
  {
    if value.Some? then value.value else current
  }

  /** The store. */
  class QrStore {
    var content: string
    var style: Style

    constructor(content0: string, style0: Style)
      ensures content == content0 && style == style0
    {
      content, style := content0, style0;
    }
  }
}
