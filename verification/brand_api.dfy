/** The brand endpoints: starting an extraction, uploading a logo, and the read, update and
    verify endpoints, which have no database behind them yet. The job and file UUIDs the
    endpoints would draw are passed in. */
module BrandApi {
  import opened Wrappers
  import opened Text
  import opened BrandModels
  import opened Storage
  import opened BrandExtractor

  /** An HTTP error answer. */
  datatype HttpError = HttpError(status: int, detail: string)

  /* -------------------------------------------------------------- extraction */

  /** The body of `POST /extract`: a site and an optional name. */
  datatype CreateRequest = CreateRequest(websiteUrl: string, brandName: Option<string>)

  /** The answer to an extraction: the job, a fixed status and message, and the pipeline's outcome. */
  datatype ExtractResponse = ExtractResponse(jobId: string, status: string, message: string, data: Extraction)

  /** `POST /extract`: runs the pipeline on the requested site and reports it as a started job. The
      pipeline catches its own failures, so the endpoint always answers, and with the same status
      whether the extraction completed or failed. */
  function ExtractBrandDNA(req: CreateRequest, jobId: string, crawl: Result<CrawlData, string>, svc: Services): (r: ExtractResponse)
    ensures r.jobId == jobId
    ensures r.status == "processing" && r.message == "Brand DNA extraction started"
    ensures r.data.Failed? <==> crawl.Failure?
    ensures r.data.Complete? ==> r.data.websiteUrl == req.websiteUrl
  {
    ExtractResponse(jobId, "processing", "Brand DNA extraction started",
      ExtractFromUrl(req.websiteUrl, req.brandName, crawl, svc))
  }

  /** An extraction that failed is still reported as processing; its error is only in the data. */
  lemma ExtractFailureLooksStarted(req: CreateRequest, jobId: string, e: string, svc: Services)
    ensures var r := ExtractBrandDNA(req, jobId, Failure(e), svc);
      r.status == "processing" && r.data == Failed(e)
  {
  }

  /* -------------------------------------------------------------------- logo */

  /** The content types a logo may have. */
  const AllowedLogoTypes := ["image/png", "image/svg+xml", "image/jpeg"]

  /** The rejection of any other content type, listing the allowed ones as Python prints a list. */
  const InvalidLogoType := "Invalid file type. Allowed: ['image/png', 'image/svg+xml', 'image/jpeg']"

  const DefaultUploadPosition := "bottom-right"

  /** The successful answer to a logo upload: the logo record built from it. */
  datatype LogoResponse = LogoResponse(status: string, message: string, logo: LogoAsset)

  /** `POST /{brand}/logo`. A content type outside the allowed list (or none) is refused with 400
      before anything is stored. Otherwise the logo is stored; a file without a name makes that
      raise, answered with 500. The record gets the stored URL, the file's lower-cased extension as
      its format, transparency exactly for PNG, the requested position (bottom-right by default),
      and the default sizes and padding. */
  function UploadBrandLogo(
    brandId: string, contentType: Option<string>, filename: Option<string>,
    position: Option<string>, uuid: string): (r: Result<LogoResponse, HttpError>)
    ensures (contentType.None? || contentType.value !in AllowedLogoTypes) ==>
      r == Failure(HttpError(400, InvalidLogoType))
    ensures r.Success? <==> contentType.Some? && contentType.value in AllowedLogoTypes && filename.Some?
    ensures r.Failure? && contentType.Some? && contentType.value in AllowedLogoTypes ==> r.error.status == 500
    ensures r.Success? ==>
      && r.value.status == "success"
      && r.value.message == "Logo uploaded successfully"
      && UploadLogo(filename, brandId, uuid) == Success(r.value.logo.logoUrl)
      && r.value.logo.logoFormat == Extension(filename.value)
      && (r.value.logo.hasTransparency <==> contentType.value == "image/png")
      && r.value.logo.preferredPosition == position.GetOr(DefaultUploadPosition)
      && r.value.logo.minSizePercent == DefaultMinSizePercent
      && r.value.logo.maxSizePercent == DefaultMaxSizePercent
      && r.value.logo.paddingPercent == DefaultPaddingPercent
  {
    if contentType.None? || contentType.value !in AllowedLogoTypes then
      Failure(HttpError(400, InvalidLogoType))
    else
      match UploadLogo(filename, brandId, uuid)
      case Failure(e) => Failure(HttpError(500, e))
      case Success(url) =>
        var asset := MakeLogoAsset(Some(url), Some(Extension(filename.value)),
          Some(contentType.value == "image/png"), Some(position.GetOr(DefaultUploadPosition)), None, None, None);
        Success(LogoResponse("success", "Logo uploaded successfully", asset.value))
  }

  /** An uploaded logo's URL lies under the brand's logo folder and ends in the recorded format. */
  lemma UploadedLogoUrlMatchesFormat(
    brandId: string, contentType: Option<string>, filename: Option<string>, position: Option<string>, uuid: string)
    requires UploadBrandLogo(brandId, contentType, filename, position, uuid).Success?
    ensures var logo := UploadBrandLogo(brandId, contentType, filename, position, uuid).value.logo;
      && EndsWith(logo.logoUrl, "." + logo.logoFormat)
      && PathOf(logo.logoUrl) == Some("logos/" + brandId + "/" + uuid + "." + logo.logoFormat)
  {
  }

  /** The record the upload builds differs from a logo given only its URL in exactly the format,
      the transparency flag and the position. */
  lemma UploadedLogoIsDefaultsPlusFile(
    brandId: string, contentType: Option<string>, filename: Option<string>, position: Option<string>, uuid: string)
    requires UploadBrandLogo(brandId, contentType, filename, position, uuid).Success?
    ensures var logo := UploadBrandLogo(brandId, contentType, filename, position, uuid).value.logo;
      var base := MakeLogoAsset(Some(logo.logoUrl), None, None, None, None, None, None);
      && base.Success?
      && logo == base.value.(logoFormat := logo.logoFormat, hasTransparency := logo.hasTransparency,
           preferredPosition := logo.preferredPosition)
  {
  }

  /* ------------------------------------------------- read, update and verify */

  /** A brand endpoint's acknowledgement, naming the brand. */
  datatype Ack = Ack(status: string, message: string, brandId: string)

  /** `GET /{brand}`: there is no store yet, so every brand is reported missing. */
  function GetBrandDNA(brandId: string): (r: Result<BrandDNAResponse, HttpError>)
    ensures r.Failure? && r.error.status == 404 && r.error.detail == "Brand not found"
  {
    Failure(HttpError(404, "Brand not found"))
  }

  /** `PATCH /{brand}`: acknowledges the update for the named brand. */
  function UpdateBrandDNA(brandId: string, req: BrandDNAUpdateRequest): (r: Ack)
    ensures r.status == "success" && r.brandId == brandId
  {
    Ack("success", "Brand DNA updated", brandId)
  }

  /** The update's answer depends on the brand alone: the requested changes are not applied anywhere. */
  lemma UpdateIgnoresRequest(brandId: string, a: BrandDNAUpdateRequest, b: BrandDNAUpdateRequest)
    ensures UpdateBrandDNA(brandId, a) == UpdateBrandDNA(brandId, b)
  {
  }

  /** `POST /{brand}/verify`: acknowledges the verification for the named brand. */
  function VerifyBrandDNA(brandId: string): (r: Ack)
    ensures r.status == "success" && r.brandId == brandId
  {
    Ack("success", "Brand DNA verified", brandId)
  }
}
