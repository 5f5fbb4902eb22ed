/** The content-generation endpoints: the supported platforms and content types, the
    fixed table of platform output specifications, request validation, and the accept or
    reject decision of the image, video and specs endpoints. Generation itself is queued
    and not performed by these endpoints. */
module GenerationApi {
  import opened Wrappers

  /* --------------------------------------------------------------- platforms */

  datatype Platform =
    | InstagramPost | InstagramStory | InstagramReel
    | LinkedinPost | FacebookPost | FacebookStory

  function PlatformValue(p: Platform): string {
    match p
    case InstagramPost => "instagram_post"
    case InstagramStory => "instagram_story"
    case InstagramReel => "instagram_reel"
    case LinkedinPost => "linkedin_post"
    case FacebookPost => "facebook_post"
    case FacebookStory => "facebook_story"
  }

  /** Reads a platform's wire value; anything else is rejected. */
  function ParsePlatform(s: string): (r: Option<Platform>)
    ensures r.Some? ==> PlatformValue(r.value) == s
  {
    if s == "instagram_post" then Some(InstagramPost)
    else if s == "instagram_story" then Some(InstagramStory)
    else if s == "instagram_reel" then Some(InstagramReel)
    else if s == "linkedin_post" then Some(LinkedinPost)
    else if s == "facebook_post" then Some(FacebookPost)
    else if s == "facebook_story" then Some(FacebookStory)
    else None
  }

  /** Every platform survives a trip through its wire value. */
  lemma PlatformRoundTrip(p: Platform)
    ensures ParsePlatform(PlatformValue(p)) == Some(p)
  {
  }

  datatype ContentType = Image | Video | Carousel

  function ContentTypeValue(c: ContentType): string {
    match c
    case Image => "image"
    case Video => "video"
    case Carousel => "carousel"
  }

  /** Reads a content type's wire value; anything else is rejected. */
  function ParseContentType(s: string): (r: Option<ContentType>)
    ensures r.Some? ==> ContentTypeValue(r.value) == s
  {
    if s == "image" then Some(Image)
    else if s == "video" then Some(Video)
    else if s == "carousel" then Some(Carousel)
    else None
  }

  /** Every content type survives a trip through its wire value. */
  lemma ContentTypeRoundTrip(c: ContentType)
    ensures ParseContentType(ContentTypeValue(c)) == Some(c)
  {
  }

  /* ------------------------------------------------------------------ specs */

  /** A platform's output: pixel size, aspect label, file format, and for video a longest duration. */
  datatype PlatformSpec = PlatformSpec(
    width: int,
    height: int,
    aspectRatio: string,
    format: string,
    maxDuration: Option<int>)

  /** The output specification of every platform. */
  const PlatformSpecs: map<Platform, PlatformSpec> := map[
    InstagramPost := PlatformSpec(1080, 1080, "1:1", "jpg", None),
    InstagramStory := PlatformSpec(1080, 1920, "9:16", "jpg", None),
    InstagramReel := PlatformSpec(1080, 1920, "9:16", "mp4", Some(90)),
    LinkedinPost := PlatformSpec(1200, 628, "1.91:1", "jpg", None),
    FacebookPost := PlatformSpec(1200, 630, "1.91:1", "jpg", None),
    FacebookStory := PlatformSpec(1080, 1920, "9:16", "jpg", None)]

  /** The table covers every platform, every size is positive, and the reel is the only video
      format and the only entry with a longest duration, 90 seconds. */
  lemma SpecsTable(p: Platform)
    ensures p in PlatformSpecs
    ensures PlatformSpecs[p].width > 0 && PlatformSpecs[p].height > 0
    ensures PlatformSpecs[p].format == "mp4" <==> p == InstagramReel
    ensures PlatformSpecs[p].format != "mp4" ==> PlatformSpecs[p].format == "jpg"
    ensures PlatformSpecs[p].maxDuration.Some? <==> p == InstagramReel
    ensures p == InstagramReel ==> PlatformSpecs[p].maxDuration == Some(90)
  {
  }

  /** A platform's spec looked up with `.get`: absent for a platform the table lacks. */
  function SpecFor(p: Platform): (r: Option<PlatformSpec>)
    ensures r.Some? <==> p in PlatformSpecs
    ensures r.Some? ==> r.value == PlatformSpecs[p]
  {
    if p in PlatformSpecs then Some(PlatformSpecs[p]) else None
  }

  /** The table, unchanged (`GET /specs`): one entry per platform. */
  function GetPlatformSpecs(): (specs: map<Platform, PlatformSpec>)
    ensures forall p: Platform :: p in specs && SpecFor(p) == Some(specs[p])
    ensures |specs| == 6
  {
    var all := {InstagramPost, InstagramStory, InstagramReel, LinkedinPost, FacebookPost, FacebookStory};
    assert PlatformSpecs.Keys == all;
    assert |all| == 6;
    assert forall p: Platform :: p in PlatformSpecs by {
      forall p: Platform ensures p in PlatformSpecs {
        SpecsTable(p);
      }
    }
    PlatformSpecs
  }

  /* ---------------------------------------------------------------- requests */

  /** A generation request. */
  datatype GenerationRequest = GenerationRequest(
    brandId: string,
    platform: Platform,
    contentType: ContentType,
    prompt: string,
    includeCopy: bool,
    copyText: Option<string>,
    styleOverride: Option<string>,
    logoPosition: Option<string>)

  /** Validates a request body: brand, platform and prompt are required, the platform and content
      type must be known values; the content type defaults to image and copy is included by default. */
  function MakeGenerationRequest(
    brandId: Option<string>, platform: Option<string>, contentType: Option<string>,
    prompt: Option<string>, includeCopy: Option<bool>, copyText: Option<string>,
    styleOverride: Option<string>, logoPosition: Option<string>): (r: Result<GenerationRequest, seq<string>>)
    ensures r.Success? <==>
      && brandId.Some? && prompt.Some?
      && platform.Some? && ParsePlatform(platform.value).Some?
      && (contentType.None? || ParseContentType(contentType.value).Some?)
    ensures r.Success? ==>
      && r.value.brandId == brandId.value && r.value.prompt == prompt.value
      && PlatformValue(r.value.platform) == platform.value
      && (contentType.None? ==> r.value.contentType == Image)
      && (contentType.Some? ==> ContentTypeValue(r.value.contentType) == contentType.value)
      && r.value.includeCopy == includeCopy.GetOr(true)
      && r.value.copyText == copyText && r.value.styleOverride == styleOverride
      && r.value.logoPosition == logoPosition
  {
    var issues :=
      (if brandId.None? then ["brand_id"] else [])
      + (if platform.None? || ParsePlatform(platform.value).None? then ["platform"] else [])
      + (if contentType.Some? && ParseContentType(contentType.value).None? then ["content_type"] else [])
      + (if prompt.None? then ["prompt"] else []);
    if |issues| > 0 then Failure(issues)
    else
      var ct := if contentType.None? then Image else ParseContentType(contentType.value).value;
      Success(GenerationRequest(brandId.value, ParsePlatform(platform.value).value, ct, prompt.value,
        includeCopy.GetOr(true), copyText, styleOverride, logoPosition))
  }

  /* --------------------------------------------------------------- responses */

  /** An endpoint's answer: a queued job echoing the platform spec, or an HTTP error. */
  datatype Response =
    | Queued(message: string, jobId: string, specs: PlatformSpec, logoIncluded: bool)
    | HttpError(status: int, detail: string)

  const PlaceholderJobId := "placeholder-job-id"

  /** `POST /image`: a platform without a spec is rejected; otherwise the job is queued with the
      platform's spec and the logo flag set. */
  function GenerateImage(req: GenerationRequest): (r: Response)
    ensures SpecFor(req.platform).None? ==> r == HttpError(400, "Unsupported platform")
    ensures SpecFor(req.platform).Some? ==>
      r.Queued? && r.specs == SpecFor(req.platform).value && r.logoIncluded
  {
    match SpecFor(req.platform)
    case None => HttpError(400, "Unsupported platform")
    case Some(specs) => Queued("Image generation started", PlaceholderJobId, specs, true)
  }

  /** Every platform has a spec, so every image request is queued, with its platform's size. */
  lemma ImageAlwaysQueued(req: GenerationRequest)
    ensures GenerateImage(req).Queued?
    ensures GenerateImage(req).specs.width > 0 && GenerateImage(req).specs.height > 0
  {
    SpecsTable(req.platform);
  }

  /** `POST /video`: a non-video content type is rejected first; then a platform without a spec or
      whose format is not mp4. What passes is queued with the platform's spec and the logo flag set. */
  function GenerateVideo(req: GenerationRequest): (r: Response)
    ensures req.contentType != Video ==> r == HttpError(400, "Use content_type=video")
    ensures req.contentType == Video && (SpecFor(req.platform).None? || SpecFor(req.platform).value.format != "mp4") ==>
      r == HttpError(400, "Platform does not support video")
    ensures r.Queued? ==> SpecFor(req.platform) == Some(r.specs) && r.specs.format == "mp4" && r.logoIncluded
  {
    if req.contentType != Video then HttpError(400, "Use content_type=video")
    else
      match SpecFor(req.platform)
      case None => HttpError(400, "Platform does not support video")
      case Some(specs) =>
        if specs.format != "mp4" then HttpError(400, "Platform does not support video")
        else Queued("Video generation started", PlaceholderJobId, specs, true)
  }

  /** Exactly video requests for reels are queued, and they carry the 90-second limit. */
  lemma VideoAcceptedOnlyForReels(req: GenerationRequest)
    ensures GenerateVideo(req).Queued? <==> req.contentType == Video && req.platform == InstagramReel
    ensures GenerateVideo(req).Queued? ==> GenerateVideo(req).specs.maxDuration == Some(90)
  {
    SpecsTable(req.platform);
  }

  /** A request validated with no content type is an image request, which the video endpoint turns away. */
  lemma DefaultRequestIsNotVideo(brandId: string, platform: string, prompt: string)
    requires ParsePlatform(platform).Some?
    ensures var r := MakeGenerationRequest(Some(brandId), Some(platform), None, Some(prompt), None, None, None, None);
      r.Success? && GenerateVideo(r.value) == HttpError(400, "Use content_type=video")
  {
  }
}
