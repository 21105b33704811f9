/**
 * The settings both renderers keep, and the normalisation the settings dialog
 * applies to its form when it closes with "save".
 */
module Preferences {
  import opened Wrappers
  import opened CryptoOptions
  import opened Status

  /** The settings object: what `getSettings`/`setSettings` exchange with the main process. */
  datatype Settings = Settings(
    theme: Option<string>,
    fontFamily: Option<string>,
    fontSize: int,
    crypto: Option<CryptoPrefs>)

  /** The fallback font size of renderer.mjs. */
  const PromptDefaultFontSize := 12
  /** The fallback font size of renderer.js. */
  const InlineDefaultFontSize := 15
  /** The fallback iteration count of both renderers. */
  const DefaultIterationCount := 65536

  /**
   * The settings form as `FormData` reports it. A string field is None when the
   * form has no such control. A numeric field holds `Number(form.get(...))`:
   * None when that is NaN, 0 for an empty or missing control.
   */
  datatype Form = Form(
    theme: Option<string>,
    fontFamily: Option<string>,
    fontSize: Option<int>,
    symmetric: Option<string>,
    compression: Option<string>,
    aead: Option<string>,
    s2kIterationCount: Option<int>)

  /** `Number(field) || fallback`: zero and NaN both fall back. */
  function NumberOr(n: Option<int>, fallback: int): (r: int)
    ensures fallback != 0 ==> r != 0
    ensures r == fallback || (n == Some(r) && r != 0)
    ensures n.Some? && n.value != 0 ==> r == n.value
  {
    if n.Some? && n.value != 0 then n.value else fallback
  }

  /** Submitting a value the form already produced gives it back: the fallback is idempotent. */
  lemma NumberOrIdempotent(n: Option<int>, fallback: int)
    requires fallback != 0
    ensures NumberOr(Some(NumberOr(n, fallback)), fallback) == NumberOr(n, fallback)
  {
  }

  /** The settings object the dialog's close handler builds from the form. */
  function Normalise(form: Form, defaultFontSize: int): (s: Settings)
    requires defaultFontSize != 0
    ensures s.theme == form.theme && s.fontFamily == form.fontFamily
    ensures s.fontSize != 0
    ensures form.fontSize.Some? && form.fontSize.value != 0 ==> s.fontSize == form.fontSize.value
    ensures form.fontSize.None? || form.fontSize == Some(0) ==> s.fontSize == defaultFontSize
    ensures s.crypto.Some?
    ensures s.crypto.value.symmetric == form.symmetric && s.crypto.value.compression == form.compression
    ensures s.crypto.value.aead == Some(form.aead == Some("true"))
    ensures s.crypto.value.s2kIterationCount.Some? && s.crypto.value.s2kIterationCount.value != 0
    ensures form.s2kIterationCount.Some? && form.s2kIterationCount.value != 0 ==>
              s.crypto.value.s2kIterationCount == form.s2kIterationCount
    ensures form.s2kIterationCount.None? || form.s2kIterationCount == Some(0) ==>
              s.crypto.value.s2kIterationCount == Some(DefaultIterationCount)
  {
    Settings(
      form.theme,
      form.fontFamily,
      NumberOr(form.fontSize, defaultFontSize),
      Some(CryptoPrefs(
        form.symmetric,
        Some(form.aead == Some("true")),
        form.compression,
        Some(NumberOr(form.s2kIterationCount, DefaultIterationCount)))))
  }

  /**
   * In the settings a saved dialog sends, AEAD is used exactly when the form said
   * `true` (the `??` default no longer applies), and the status label shows
   * `+AEAD` exactly when AEAD is used.
   */
  lemma SavedSettingsAead(form: Form, defaultFontSize: int)
    requires defaultFontSize != 0
    ensures var crypto := Normalise(form, defaultFontSize).crypto;
            && (Resolve(crypto).aeadProtect <==> form.aead == Some("true"))
            && (AeadPart(crypto) == "+AEAD" <==> Resolve(crypto).aeadProtect)
  {
    LabelDescribesConfig(Normalise(form, defaultFontSize).crypto);
  }

  /** The settings a saved dialog sends to the main process ask the library for the cipher and compression the form's names look up. */
  lemma SavedSettingsAlgorithms(form: Form, defaultFontSize: int)
    requires defaultFontSize != 0
    ensures var config := Resolve(Normalise(form, defaultFontSize).crypto);
            && config.preferredSymmetricAlgorithm == LookupSymmetric(OrElse(form.symmetric, "aes256"))
            && config.preferredCompressionAlgorithm == LookupCompression(OrElse(form.compression, "zlib"))
  {
  }
}
