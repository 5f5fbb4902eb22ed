/** The brand-identity records ("Brand DNA") and the validation their schema
    performs when a record is built from loose input: required fields,
    defaults for the rest, the formality range and the emotion enum.
    Each `Make…` function takes every field as an `Option` (absent or given)
    and either builds the record or lists every field that failed. */
module BrandModels {
  import opened Wrappers

  /* ------------------------------------------------------------ emotions */

  /** The seven emotional tones a brand may have. */
  datatype Emotion =
    | Professional | Friendly | Authoritative | Empathetic
    | Enthusiastic | Serious | Playful

  /** The wire value of each tone. */
  function EmotionValue(e: Emotion): string {
    match e
    case Professional => "profesional"
    case Friendly => "amigable"
    case Authoritative => "autoritativo"
    case Empathetic => "empatico"
    case Enthusiastic => "entusiasta"
    case Serious => "serio"
    case Playful => "jugueton"
  }

  /** Reading a wire value back: only the seven values are accepted, each as its own tone. */
  function ParseEmotion(s: string): (r: Option<Emotion>)
    ensures r.Some? ==> EmotionValue(r.value) == s
  {
    if s == "profesional" then Some(Professional)
    else if s == "amigable" then Some(Friendly)
    else if s == "autoritativo" then Some(Authoritative)
    else if s == "empatico" then Some(Empathetic)
    else if s == "entusiasta" then Some(Enthusiastic)
    else if s == "serio" then Some(Serious)
    else if s == "jugueton" then Some(Playful)
    else None
  }

  /** Every tone survives a trip through its wire value, so the value set is exactly the seven strings. */
  lemma EmotionRoundTrip(e: Emotion)
    ensures ParseEmotion(EmotionValue(e)) == Some(e)
  {
  }

  /** A string is accepted as a tone exactly when it is one of the seven wire values. */
  lemma EmotionAccepted(s: string)
    ensures ParseEmotion(s).Some? <==> exists e: Emotion :: EmotionValue(e) == s
  {
    if exists e: Emotion :: EmotionValue(e) == s {
      var e: Emotion :| EmotionValue(e) == s;
      EmotionRoundTrip(e);
    }
  }

  /* ---------------------------------------------------------- validation */

  /** One reason a record could not be built. */
  datatype Issue =
    | Missing(field: string)
    | OutOfRange(field: string)
    | NotAnEmotion(field: string, given: string)

  /** The issue for a required field, if it is absent. */
  function Require<T>(field: string, v: Option<T>): seq<Issue> {
    if v.None? then [Missing(field)] else []
  }

  /* ------------------------------------------------------------- colours */

  /** The colour palette: five hex strings (the schema does not check their form). */
  datatype VectorCromatico = VectorCromatico(
    primary: string,
    secondary: string,
    accent: string,
    background: string,
    textOnPrimary: string)

  const DefaultAccent := "#000000"
  const DefaultBackground := "#FFFFFF"
  const DefaultTextOnPrimary := "#FFFFFF"

  /** Builds a palette: primary and secondary are required, the other three default. */
  function MakeVectorCromatico(
    primary: Option<string>, secondary: Option<string>, accent: Option<string>,
    background: Option<string>, textOnPrimary: Option<string>): (r: Result<VectorCromatico, seq<Issue>>)
    ensures r.Success? <==> primary.Some? && secondary.Some?
    ensures r.Success? ==>
      && r.value.primary == primary.value && r.value.secondary == secondary.value
      && r.value.accent == accent.GetOr(DefaultAccent)
      && r.value.background == background.GetOr(DefaultBackground)
      && r.value.textOnPrimary == textOnPrimary.GetOr(DefaultTextOnPrimary)
    ensures r.Failure? ==>
      && (Missing("primary") in r.error <==> primary.None?)
      && (Missing("secondary") in r.error <==> secondary.None?)
  {
    var issues := Require("primary", primary) + Require("secondary", secondary);
    if |issues| > 0 then Failure(issues)
    else Success(VectorCromatico(primary.value, secondary.value, accent.GetOr(DefaultAccent),
      background.GetOr(DefaultBackground), textOnPrimary.GetOr(DefaultTextOnPrimary)))
  }

  /** Dumping a palette and validating the dump gives the same palette back. */
  lemma CromaticoRoundTrip(v: VectorCromatico)
    ensures MakeVectorCromatico(Some(v.primary), Some(v.secondary), Some(v.accent),
      Some(v.background), Some(v.textOnPrimary)) == Success(v)
  {
  }

  /* ---------------------------------------------------------- typography */

  /** Heading and body font families, with the fallbacks used when they are unavailable. */
  datatype VectorTipografico = VectorTipografico(
    headings: string,
    body: string,
    googleFontsAvailable: bool,
    fallbackHeadings: string,
    fallbackBody: string)

  const DefaultFallbackFont := "sans-serif"

  /** Builds a typography record: both families are required; Google-fonts flag defaults to true, fallbacks to sans-serif. */
  function MakeVectorTipografico(
    headings: Option<string>, body: Option<string>, googleFontsAvailable: Option<bool>,
    fallbackHeadings: Option<string>, fallbackBody: Option<string>): (r: Result<VectorTipografico, seq<Issue>>)
    ensures r.Success? <==> headings.Some? && body.Some?
    ensures r.Success? ==>
      && r.value.headings == headings.value && r.value.body == body.value
      && r.value.googleFontsAvailable == googleFontsAvailable.GetOr(true)
      && r.value.fallbackHeadings == fallbackHeadings.GetOr(DefaultFallbackFont)
      && r.value.fallbackBody == fallbackBody.GetOr(DefaultFallbackFont)
    ensures r.Failure? ==>
      && (Missing("headings") in r.error <==> headings.None?)
      && (Missing("body") in r.error <==> body.None?)
  {
    var issues := Require("headings", headings) + Require("body", body);
    if |issues| > 0 then Failure(issues)
    else Success(VectorTipografico(headings.value, body.value, googleFontsAvailable.GetOr(true),
      fallbackHeadings.GetOr(DefaultFallbackFont), fallbackBody.GetOr(DefaultFallbackFont)))
  }

  /* ------------------------------------------------------------ semantics */

  /** Voice and tone: formality in [0, 1], one of the seven emotions, sentence style, vocabulary, and a copywriting prompt. */
  datatype VectorSemantico = VectorSemantico(
    formalidad: real,
    emocion: Emotion,
    longitudSentencia: string,
    vocabulario: seq<string>,
    systemPrompt: string)

  const DefaultSentenceLength := "concisa"

  /** The issues of the formality field: absent, or outside [0, 1]. */
  function FormalityIssues(formalidad: Option<real>): seq<Issue> {
    if formalidad.None? then [Missing("formalidad")]
    else if !(0.0 <= formalidad.value <= 1.0) then [OutOfRange("formalidad")]
    else []
  }

  /** The issues of the emotion field: absent, or not one of the seven values. */
  function EmotionIssues(emocion: Option<string>): seq<Issue> {
    if emocion.None? then [Missing("emocion")]
    else if ParseEmotion(emocion.value).None? then [NotAnEmotion("emocion", emocion.value)]
    else []
  }

  /** Builds a tone record; fails exactly when formality, emotion or system prompt is absent or invalid. */
  function MakeVectorSemantico(
    formalidad: Option<real>, emocion: Option<string>, longitudSentencia: Option<string>,
    vocabulario: Option<seq<string>>, systemPrompt: Option<string>): (r: Result<VectorSemantico, seq<Issue>>)
    ensures r.Success? <==>
      && formalidad.Some? && 0.0 <= formalidad.value <= 1.0
      && emocion.Some? && ParseEmotion(emocion.value).Some?
      && systemPrompt.Some?
    ensures r.Success? ==>
      && r.value.formalidad == formalidad.value
      && EmotionValue(r.value.emocion) == emocion.value
      && r.value.longitudSentencia == longitudSentencia.GetOr(DefaultSentenceLength)
      && r.value.vocabulario == vocabulario.GetOr([])
      && r.value.systemPrompt == systemPrompt.value
    ensures r.Failure? && formalidad.Some? && !(0.0 <= formalidad.value <= 1.0) ==>
      OutOfRange("formalidad") in r.error
    ensures r.Failure? && emocion.Some? && ParseEmotion(emocion.value).None? ==>
      NotAnEmotion("emocion", emocion.value) in r.error
  {
    var issues := FormalityIssues(formalidad) + EmotionIssues(emocion) + Require("system_prompt", systemPrompt);
    if |issues| > 0 then Failure(issues)
    else Success(VectorSemantico(formalidad.value, ParseEmotion(emocion.value).value,
      longitudSentencia.GetOr(DefaultSentenceLength), vocabulario.GetOr([]), systemPrompt.value))
  }

  /** A tone record is well formed when its formality lies in [0, 1]. */
  predicate ValidSemantico(v: VectorSemantico) {
    0.0 <= v.formalidad <= 1.0
  }

  /** A well-formed tone record survives dumping and re-validation, and only a well-formed one does. */
  lemma SemanticoRoundTrip(v: VectorSemantico)
    ensures var r := MakeVectorSemantico(Some(v.formalidad), Some(EmotionValue(v.emocion)),
      Some(v.longitudSentencia), Some(v.vocabulario), Some(v.systemPrompt));
      (ValidSemantico(v) ==> r == Success(v)) && (!ValidSemantico(v) ==> r.Failure?)
  {
    EmotionRoundTrip(v.emocion);
  }

  /* -------------------------------------------------------------- visuals */

  /** Photographic style, reference image URLs and an optional style-embedding id. */
  datatype VectorVisual = VectorVisual(
    estiloFotografico: string,
    referenciaImagenesUrls: seq<string>,
    ipAdapterEmbeddingId: Option<string>)

  /** Builds a visual-style record: only the style description is required. */
  function MakeVectorVisual(
    estiloFotografico: Option<string>, referenciaImagenesUrls: Option<seq<string>>,
    ipAdapterEmbeddingId: Option<string>): (r: Result<VectorVisual, seq<Issue>>)
    ensures r.Success? <==> estiloFotografico.Some?
    ensures r.Success? ==>
      && r.value.estiloFotografico == estiloFotografico.value
      && r.value.referenciaImagenesUrls == referenciaImagenesUrls.GetOr([])
      && r.value.ipAdapterEmbeddingId == ipAdapterEmbeddingId
    ensures r.Failure? ==> r.error == [Missing("estilo_fotografico")]
  {
    if estiloFotografico.None? then Failure([Missing("estilo_fotografico")])
    else Success(VectorVisual(estiloFotografico.value, referenciaImagenesUrls.GetOr([]), ipAdapterEmbeddingId))
  }

  /* ----------------------------------------------------------------- logo */

  /** How the brand's logo is stored and placed: sizes and padding are fractions of the image width. */
  datatype LogoAsset = LogoAsset(
    logoUrl: string,
    logoFormat: string,
    hasTransparency: bool,
    preferredPosition: string,
    minSizePercent: real,
    maxSizePercent: real,
    paddingPercent: real)

  const DefaultLogoFormat := "png"
  const DefaultLogoPosition := "bottom-right"
  const DefaultMinSizePercent: real := 0.08
  const DefaultMaxSizePercent: real := 0.15
  const DefaultPaddingPercent: real := 0.03

  /** Builds a logo record: only the URL is required. */
  function MakeLogoAsset(
    logoUrl: Option<string>, logoFormat: Option<string>, hasTransparency: Option<bool>,
    preferredPosition: Option<string>, minSizePercent: Option<real>,
    maxSizePercent: Option<real>, paddingPercent: Option<real>): (r: Result<LogoAsset, seq<Issue>>)
    ensures r.Success? <==> logoUrl.Some?
    ensures r.Success? ==>
      && r.value.logoUrl == logoUrl.value
      && r.value.logoFormat == logoFormat.GetOr(DefaultLogoFormat)
      && r.value.hasTransparency == hasTransparency.GetOr(true)
      && r.value.preferredPosition == preferredPosition.GetOr(DefaultLogoPosition)
      && r.value.minSizePercent == minSizePercent.GetOr(DefaultMinSizePercent)
      && r.value.maxSizePercent == maxSizePercent.GetOr(DefaultMaxSizePercent)
      && r.value.paddingPercent == paddingPercent.GetOr(DefaultPaddingPercent)
    ensures r.Failure? ==> r.error == [Missing("logo_url")]
  {
    if logoUrl.None? then Failure([Missing("logo_url")])
    else Success(LogoAsset(logoUrl.value, logoFormat.GetOr(DefaultLogoFormat), hasTransparency.GetOr(true),
      preferredPosition.GetOr(DefaultLogoPosition), minSizePercent.GetOr(DefaultMinSizePercent),
      maxSizePercent.GetOr(DefaultMaxSizePercent), paddingPercent.GetOr(DefaultPaddingPercent)))
  }

  /** A logo given only its URL sits bottom-right, is a transparent PNG, and spans 8–15% with 3% padding. */
  lemma LogoDefaults(url: string)
    ensures var r := MakeLogoAsset(Some(url), None, None, None, None, None, None);
      && r.Success?
      && r.value == LogoAsset(url, "png", true, "bottom-right", 0.08, 0.15, 0.03)
  {
  }

  /* ----------------------------------------------------------- brand DNA */

  /** A complete brand identity. Timestamps are clock readings taken when the record is built. */
  datatype BrandDNA = BrandDNA(
    id: Option<string>,
    userId: string,
    brandName: string,
    websiteUrl: string,
    cromatico: VectorCromatico,
    tipografico: VectorTipografico,
    semantico: VectorSemantico,
    visual: VectorVisual,
    logo: LogoAsset,
    createdAt: int,
    updatedAt: int,
    extractionVersion: string,
    isVerified: bool)

  const DefaultExtractionVersion := "1.0.0"

  /** The loose input a brand record is validated from: every field may be absent. */
  datatype BrandDNAInput = BrandDNAInput(
    id: Option<string>,
    userId: Option<string>,
    brandName: Option<string>,
    websiteUrl: Option<string>,
    cromatico: Option<VectorCromatico>,
    tipografico: Option<VectorTipografico>,
    semantico: Option<VectorSemantico>,
    visual: Option<VectorVisual>,
    logo: Option<LogoAsset>,
    createdAt: Option<int>,
    updatedAt: Option<int>,
    extractionVersion: Option<string>,
    isVerified: Option<bool>)

  /** Every issue of a brand input, field by field. */
  function BrandDNAIssues(input: BrandDNAInput): seq<Issue> {
    Require("user_id", input.userId) + Require("brand_name", input.brandName)
    + Require("website_url", input.websiteUrl) + Require("vector_cromatico", input.cromatico)
    + Require("vector_tipografico", input.tipografico) + Require("vector_semantico", input.semantico)
    + Require("vector_visual", input.visual) + Require("logo", input.logo)
  }

  /** Builds a brand record. The logo is required like the four vectors; an absent timestamp is filled
      from its own clock reading (`createdNow` and `updatedNow`, taken one after the other, so they may
      differ); the record starts unverified unless told otherwise. */
  function MakeBrandDNA(input: BrandDNAInput, createdNow: int, updatedNow: int): (r: Result<BrandDNA, seq<Issue>>)
    ensures input.logo.None? ==> r.Failure? && Missing("logo") in r.error
    ensures r.Success? <==>
      && input.userId.Some? && input.brandName.Some? && input.websiteUrl.Some?
      && input.cromatico.Some? && input.tipografico.Some? && input.semantico.Some?
      && input.visual.Some? && input.logo.Some?
    ensures r.Success? ==>
      && r.value.logo == input.logo.value
      && r.value.isVerified == input.isVerified.GetOr(false)
      && r.value.extractionVersion == input.extractionVersion.GetOr(DefaultExtractionVersion)
      && r.value.createdAt == input.createdAt.GetOr(createdNow)
      && r.value.updatedAt == input.updatedAt.GetOr(updatedNow)
      && r.value.id == input.id
  {
    var issues := BrandDNAIssues(input);
    if |issues| > 0 then Failure(issues)
    else Success(BrandDNA(input.id, input.userId.value, input.brandName.value, input.websiteUrl.value,
      input.cromatico.value, input.tipografico.value, input.semantico.value, input.visual.value,
      input.logo.value, input.createdAt.GetOr(createdNow), input.updatedAt.GetOr(updatedNow),
      input.extractionVersion.GetOr(DefaultExtractionVersion), input.isVerified.GetOr(false)))
  }

  /* ------------------------------------------------------ update request */

  /** A user's adjustments to a brand: every part optional, `isVerified` false unless given. */
  datatype BrandDNAUpdateRequest = BrandDNAUpdateRequest(
    cromatico: Option<VectorCromatico>,
    tipografico: Option<VectorTipografico>,
    semantico: Option<VectorSemantico>,
    logoPosition: Option<string>,
    isVerified: bool)

  /** Builds an update request; it never fails, whatever is left out. */
  function MakeUpdateRequest(
    cromatico: Option<VectorCromatico>, tipografico: Option<VectorTipografico>,
    semantico: Option<VectorSemantico>, logoPosition: Option<string>,
    isVerified: Option<bool>): (r: BrandDNAUpdateRequest)
    ensures r.isVerified <==> isVerified == Some(true)
    ensures r.cromatico == cromatico && r.tipografico == tipografico
    ensures r.semantico == semantico && r.logoPosition == logoPosition
  {
    BrandDNAUpdateRequest(cromatico, tipografico, semantico, logoPosition, isVerified.GetOr(false))
  }

  /* ------------------------------------------------------------ response */

  /** A brand as returned to clients; here the logo may be absent. */
  datatype BrandDNAResponse = BrandDNAResponse(
    id: string,
    brandName: string,
    websiteUrl: string,
    cromatico: VectorCromatico,
    tipografico: VectorTipografico,
    semantico: VectorSemantico,
    visual: VectorVisual,
    logo: Option<LogoAsset>,
    isVerified: bool,
    createdAt: int)

  /** Builds a response record: everything but the logo is required, `isVerified` included. */
  function MakeBrandDNAResponse(
    id: Option<string>, brandName: Option<string>, websiteUrl: Option<string>,
    cromatico: Option<VectorCromatico>, tipografico: Option<VectorTipografico>,
    semantico: Option<VectorSemantico>, visual: Option<VectorVisual>,
    logo: Option<LogoAsset>, isVerified: Option<bool>, createdAt: Option<int>): (r: Result<BrandDNAResponse, seq<Issue>>)
    ensures r.Success? <==>
      && id.Some? && brandName.Some? && websiteUrl.Some? && cromatico.Some? && tipografico.Some?
      && semantico.Some? && visual.Some? && isVerified.Some? && createdAt.Some?
    ensures r.Success? ==> r.value.logo == logo && r.value.isVerified == isVerified.value
    ensures r.Failure? ==> Missing("logo") !in r.error
  {
    var issues := Require("id", id) + Require("brand_name", brandName) + Require("website_url", websiteUrl)
      + Require("vector_cromatico", cromatico) + Require("vector_tipografico", tipografico)
      + Require("vector_semantico", semantico) + Require("vector_visual", visual)
      + Require("is_verified", isVerified) + Require("created_at", createdAt);
    if |issues| > 0 then Failure(issues)
    else Success(BrandDNAResponse(id.value, brandName.value, websiteUrl.value, cromatico.value,
      tipografico.value, semantico.value, visual.value, logo, isVerified.value, createdAt.value))
  }

  /** The logo is mandatory for a stored brand but optional in a response: the same fields without a logo
      are refused as a brand and accepted as a response. */
  lemma LogoMandatoryOnlyInBrand(input: BrandDNAInput, now: int, rid: string, verified: bool)
    requires input.logo.None?
    requires input.brandName.Some? && input.websiteUrl.Some? && input.cromatico.Some?
    requires input.tipografico.Some? && input.semantico.Some? && input.visual.Some?
    ensures MakeBrandDNA(input, now, now).Failure?
    ensures MakeBrandDNAResponse(Some(rid), input.brandName, input.websiteUrl, input.cromatico,
      input.tipografico, input.semantico, input.visual, None, Some(verified), Some(now)).Success?
  {
  }
}
