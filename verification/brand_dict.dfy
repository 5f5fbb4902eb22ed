/** The brand record as the generators receive it: a plain dictionary read with
    `.get(key, default)` at every level. Only the leaves the generators read are
    kept, each as an `Option`; a missing section reads like a section whose keys
    are all missing. */
module BrandDict {
  import opened Wrappers
  import opened BrandModels

  /** The `logo` section. */
  datatype LogoConfig = LogoConfig(
    logoUrl: Option<string>,
    minSizePercent: Option<real>,
    maxSizePercent: Option<real>,
    paddingPercent: Option<real>,
    preferredPosition: Option<string>)

  /** The `vector_cromatico` section. */
  datatype Colours = Colours(
    primary: Option<string>,
    secondary: Option<string>,
    background: Option<string>,
    textOnPrimary: Option<string>)

  /** The leaves of a brand dictionary that the generators consult. */
  datatype Brand = Brand(
    logo: LogoConfig,
    colours: Colours,
    photoStyle: Option<string>,
    emotion: Option<string>)

  /** A dictionary with no sections at all. */
  const EmptyBrand := Brand(
    LogoConfig(None, None, None, None, None),
    Colours(None, None, None, None),
    None, None)

  /** The dictionary a stored brand record dumps to: every leaf the generators read is present
      and carries the record's value. */
  function FromBrandDNA(dna: BrandDNA): (b: Brand)
    ensures b.logo.logoUrl == Some(dna.logo.logoUrl)
    ensures b.logo.maxSizePercent == Some(dna.logo.maxSizePercent)
    ensures b.logo.paddingPercent == Some(dna.logo.paddingPercent)
    ensures b.logo.preferredPosition == Some(dna.logo.preferredPosition)
    ensures b.colours.primary == Some(dna.cromatico.primary)
    ensures b.emotion == Some(EmotionValue(dna.semantico.emocion))
    ensures ParseEmotion(b.emotion.value) == Some(dna.semantico.emocion)
  {
    EmotionRoundTrip(dna.semantico.emocion);
    Brand(
      LogoConfig(
        Some(dna.logo.logoUrl), Some(dna.logo.minSizePercent), Some(dna.logo.maxSizePercent),
        Some(dna.logo.paddingPercent), Some(dna.logo.preferredPosition)),
      Colours(
        Some(dna.cromatico.primary), Some(dna.cromatico.secondary),
        Some(dna.cromatico.background), Some(dna.cromatico.textOnPrimary)),
      Some(dna.visual.estiloFotografico),
      Some(EmotionValue(dna.semantico.emocion)))
  }

  /** Python truthiness of an optional string: present and non-empty. */
  predicate Truthy(s: Option<string>) {
    s.Some? && s.value != ""
  }
}
