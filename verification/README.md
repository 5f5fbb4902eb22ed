# Brand DNA and branded generation — a Dafny model

This project models the core of a branded-content backend. Given a brand's website, it extracts a
"Brand DNA":
- a colour palette from K-Means clustering of a screenshot;
- typography from computed CSS;
- tone of voice and visual style from a language model.

It then uses that DNA to produce branded content. Every image gets the brand logo pasted in a
configured corner, after which the image is resized and centre-cropped to a social platform's size.
Every video gets a logo watermark. HTTP endpoints start extractions, upload logos, and accept or
reject generation requests against a fixed table of platform specifications.

The model is functional throughout:
- Records are immutable datatypes.
- Python exceptions become `Result`/`Option` values.
- Outside services are function parameters: the crawler's output, image decoding, K-Means, the
  language model, the JSON parser, the logo fetcher, the text measurer, and the UUIDs and clock
  readings.
- An image is its size plus the ordered list of drawing operations applied to it. Pixels are not
  modelled.

Modules, one per file:

| module | file | models |
|---|---|---|
| `Wrappers` | wrappers.dfy | `Option` and `Result` |
| `Text` | text.dfy | Python `split`, `strip`, ASCII `lower`, `replace(c, "")`, substring search |
| `Json` | json.dfy | parsed JSON values and the `.get` accessors used on them |
| `BrandModels` | brand_models.dfy | the pydantic schemas of `backend/app/models/brand_dna.py` |
| `Storage` | storage.dfy | storage paths and public URLs |
| `ColorExtraction` | colors.dfy | `_extract_colors`: pixel mask, frequency ranking, hex formatting, palette |
| `BrandExtractor` | brand_extractor.dfy | typography, tone, visual style, the extraction pipeline |
| `BrandDict` | brand_dict.dfy | the brand dictionary as the generators read it |
| `ImageGenerator` | image_generator.dfy | `ImageGeneratorService` |
| `VideoGenerator` | video_generator.dfy | `VideoGeneratorService` |
| `BrandApi` | brand_api.dfy | the brand endpoints |
| `GenerationApi` | generation_api.dfy | the generation endpoints and `PLATFORM_SPECS` |

## Model

| member | source | states |
|---|---|---|
| BrandModels.ParseEmotion | backend/app/models/brand_dna.py:12-20 | only the seven wire values are accepted, each as the tone whose value it is |
| BrandModels.EmotionRoundTrip | backend/app/models/brand_dna.py:12-20 | every tone survives a trip through its wire value |
| BrandModels.EmotionAccepted | backend/app/models/brand_dna.py:12-20 | a string is accepted as a tone if and only if it is some tone's wire value |
| BrandModels.MakeVectorCromatico | backend/app/models/brand_dna.py:23-29 | primary and secondary are required and each missing one is reported; accent defaults to black, background and text-on-primary to white |
| BrandModels.CromaticoRoundTrip | backend/app/models/brand_dna.py:23-29 | validating a dumped palette gives the same palette |
| BrandModels.MakeVectorTipografico | backend/app/models/brand_dna.py:32-38 | both families are required; the Google-fonts flag defaults to true and both fallbacks to sans-serif |
| BrandModels.MakeVectorSemantico | backend/app/models/brand_dna.py:41-47 | succeeds if and only if formality is present and in [0, 1], the emotion is one of the seven, and a system prompt is given; an out-of-range formality and an unknown emotion are each reported |
| BrandModels.SemanticoRoundTrip | backend/app/models/brand_dna.py:41-47 | a tone record with formality in [0, 1] survives dump and re-validation, and any other record is refused |
| BrandModels.MakeVectorVisual | backend/app/models/brand_dna.py:50-54 | only the style description is required; references default to none and the embedding id to null |
| BrandModels.MakeLogoAsset | backend/app/models/brand_dna.py:57-65 | only the URL is required; every other field takes its declared default |
| BrandModels.LogoDefaults | backend/app/models/brand_dna.py:57-65 | a logo given only its URL is a transparent PNG at bottom-right, spanning 8–15% with 3% padding |
| BrandModels.MakeBrandDNA | backend/app/models/brand_dna.py:68-88 | the record is built if and only if the user, name, URL, four vectors and logo are all present; a missing logo is always reported; each timestamp defaults to its own clock reading, version to 1.0.0, verification to false |
| BrandModels.MakeUpdateRequest | backend/app/models/brand_dna.py:97-103 | never fails; every part is optional and the verification flag is set only when given as true |
| BrandModels.MakeBrandDNAResponse | backend/app/models/brand_dna.py:106-117 | everything except the logo is required, and a missing logo is never reported |
| BrandModels.LogoMandatoryOnlyInBrand | backend/app/models/brand_dna.py:81-82 | the same fields without a logo are refused as a brand record and accepted as a response |
| Storage.PublicUrl | backend/app/services/storage.py:81-85 | every URL lies under the bucket's public root, and the stored path can be read back from it |
| Storage.PublicUrlInjective | backend/app/services/storage.py:81-85 | distinct paths have distinct URLs |
| Storage.Extension | backend/app/services/storage.py:34 | the extension is the last dot-piece of the name, lower-cased: it holds no dot, and the lower-cased name ends with a dot followed by it |
| Storage.UploadLogo | backend/app/services/storage.py:23-43 | fails if and only if the file has no name; otherwise the URL points at `logos/<brand>/<uuid>.<ext>` and ends with the extension |
| Storage.LogoPathParts | backend/app/services/storage.py:34-35 | a logo path splits on `/` into exactly the folder, the brand and the file name, whose extension is the upload's |
| Storage.UploadGenerated | backend/app/services/storage.py:45-79 | the URL points at the brand's `images` or `videos` folder under the given name, or under `<uuid>.png` or `<uuid>.mp4` when the name is absent or empty |
| Storage.ImagesAndVideosApart | backend/app/services/storage.py:45-79 | a brand's generated image and video never share a URL |
| Storage.DeleteFile | backend/app/services/storage.py:87-92 | deletion always reports success |
| ColorExtraction.RgbToHex | backend/app/services/brand_extractor.py:189-190 | a byte colour is written as `#` followed by six lower-case hex digits |
| ColorExtraction.Hex02Byte | backend/app/services/brand_extractor.py:190 | each channel is exactly two hex digits, high nibble first, whose value is the channel |
| ColorExtraction.RgbHexRoundTrip | backend/app/services/brand_extractor.py:189-190 | every byte colour is read back from its hex string, so distinct colours get distinct strings |
| ColorExtraction.KeepInBand | backend/app/services/brand_extractor.py:173-174 | the kept pixels are exactly the pixels whose channel sum lies strictly between 30 and 700, counted with multiplicity |
| ColorExtraction.SelectPixels | backend/app/services/brand_extractor.py:173-177 | fewer than ten in-band pixels means all pixels are clustered; otherwise exactly the in-band pixels are clustered, in order and with multiplicity |
| ColorExtraction.PresentLabelsExact | backend/app/services/brand_extractor.py:185 | lists, in ascending order, exactly the labels below the bound that occur |
| ColorExtraction.UniqueLabels | backend/app/services/brand_extractor.py:185 | lists every occurring label once, ascending, and nothing that does not occur |
| ColorExtraction.CountsOf | backend/app/services/brand_extractor.py:185 | each count is the number of pixels carrying that label |
| ColorExtraction.RankIndices | backend/app/services/brand_extractor.py:186 | the ranking is a permutation of the positions, with counts never increasing along it |
| ColorExtraction.RankedHeadIsMax | backend/app/services/brand_extractor.py:186 | the first ranked position holds the largest count |
| ColorExtraction.RankingOrdered | backend/app/services/brand_extractor.py:185-186 | the ranking lists every unique label once, most pixels first |
| ColorExtraction.RankedCentresHeadMostFrequent | backend/app/services/brand_extractor.py:184-187 | when every label has a centre, the first ranked centre belongs to a most frequent cluster |
| ColorExtraction.RankedCentresAgreeWhenNoClusterEmpty | backend/app/services/brand_extractor.py:184-187 | when no cluster is empty, the code as written and the corrected ranking agree |
| ColorExtraction.RankedCentresAsWrittenMisattributes | backend/app/services/brand_extractor.py:184-187 | with at least two centres (the code asks for five) and cluster 0 empty, the code as written reports the empty cluster's centre as the primary colour |
| ColorExtraction.AssemblePalette | backend/app/services/brand_extractor.py:192-198 | the top three ranked colours become primary, secondary and accent, with fixed fallbacks when fewer exist; background and text are white |
| ColorExtraction.ExtractColors | backend/app/services/brand_extractor.py:149-206 | the default palette when there is no screenshot, the image cannot be decoded, or clustering raises; otherwise the top three ranked centres fill the palette (the default when there are none); background and text on primary are always white |
| ColorExtraction.ExtractColorsAsWritten | backend/app/services/brand_extractor.py:149-206 | the same pass with the centres indexed as line 187 writes it |
| ColorExtraction.ExtractColorsAgree | backend/app/services/brand_extractor.py:184-187 | when every label has a centre and no cluster is empty, the pass as written and the intended pass give the same palette |
| ColorExtraction.ExtractColorsOutcome | backend/app/services/brand_extractor.py:163-198 | in the intended pass, once decoding and clustering succeed, the primary colour is the hex of a most frequent cluster's centre |
| BrandExtractor.CleanFont | backend/app/services/brand_extractor.py:216-220 | a cleaned name holds no comma and no quote, and is never longer than the stack |
| BrandExtractor.CleanFontFirstFamily | backend/app/services/brand_extractor.py:218 | only the first family of a stack matters |
| BrandExtractor.CleanFontUnquotes | backend/app/services/brand_extractor.py:218-219 | a family quoted with either quote character comes out without its quotes |
| BrandExtractor.CleanFontFixpoint | backend/app/services/brand_extractor.py:216-220 | a clean name is its own cleaning, and the empty stack cleans to the empty name, never to the sans-serif default |
| BrandExtractor.ExtractTypography | backend/app/services/brand_extractor.py:208-228 | each family is the cleaned style, sans-serif when the style is missing; the fallbacks are sans-serif |
| BrandExtractor.TypographyMatchesSchema | backend/app/services/brand_extractor.py:222-228 | the result is exactly the schema's record for its two families, with every default |
| BrandExtractor.StripFence | backend/app/services/brand_extractor.py:262-266 | a reply without a leading fence is untouched; a fenced reply becomes a fence-free prefix of what follows the opening fence, less a leading `json` tag |
| BrandExtractor.StripFenceJson | backend/app/services/brand_extractor.py:262-266 | a body fenced as `json` and free of fences comes back exactly, whatever follows the closing fence, even more fences |
| BrandExtractor.StripFencePlain | backend/app/services/brand_extractor.py:262-266 | a body fenced with no tag and free of fences comes back exactly, unless it starts with `json` |
| BrandExtractor.StripFenceUnclosed | backend/app/services/brand_extractor.py:262-266 | a reply that opens a fence and never closes it keeps everything after the opening |
| BrandExtractor.Payload | backend/app/services/brand_extractor.py:262-266 | the parser sees the stripped reply, less its fence when it has one |
| BrandExtractor.AnalyzeTone | backend/app/services/brand_extractor.py:230-294 | the fixed tone when the model raises or the reply does not parse; otherwise exactly the parse of the reply's payload |
| BrandExtractor.ToneSeesOnlyExcerpt | backend/app/services/brand_extractor.py:241-244 | two pages whose texts agree on their first 3000 characters get the same tone |
| BrandExtractor.ToneFromFencedReply | backend/app/services/brand_extractor.py:262-268 | a fenced JSON reply is parsed from exactly the text inside the fence |
| BrandExtractor.ToneRecord | backend/app/models/brand_dna.py:41-47 | a tone result the schema accepts has formality in [0, 1] |
| BrandExtractor.DefaultToneValid | backend/app/services/brand_extractor.py:271-294 | the fixed tone is a valid record: formality 0.7, professional, medium sentences |
| BrandExtractor.AnalyzeVisualStyle | backend/app/services/brand_extractor.py:296-360 | the fixed style when the model raises or the reply is not a JSON object; otherwise the reply's keys plus the reference list of the first five image URLs and a null embedding id, every other value kept |
| BrandExtractor.VisualStyleRecord | backend/app/services/brand_extractor.py:333-360 | a visual result validates, with the first five images and no embedding, whenever the fallback is taken, and for a parsed object exactly when it carries a string style description |
| BrandExtractor.VisualRecord | backend/app/models/brand_dna.py:50-54 | a visual result is accepted by the schema if and only if it has a style description |
| BrandExtractor.DefaultVisualValid | backend/app/services/brand_extractor.py:337-360 | the fixed style is a valid record that keeps the first five images and no embedding |
| BrandExtractor.BrandName | backend/app/services/brand_extractor.py:56 | the caller's name unless absent or empty, then the page title, then `Unknown` |
| BrandExtractor.ExtractFromUrl | backend/app/services/brand_extractor.py:31-68 | the outcome is `failed` if and only if the guarded block raised, with its message; otherwise every vector is the corresponding pass's result |
| BrandExtractor.ExtractFromBarePage | backend/app/services/brand_extractor.py:31-68 | a page with nothing to analyse still completes, entirely from defaults |
| BrandDict.FromBrandDNA | backend/app/models/brand_dna.py:68-88 | a dumped brand record has every leaf the generators read, and its emotion parses back |
| ImageGenerator.Trunc | backend/app/services/image_generator.py:155 | `int()` of a float rounds toward zero |
| ImageGenerator.BaseImage | backend/app/services/image_generator.py:59-74 | the placeholder is a 1024 square filled with the brand background, or white |
| ImageGenerator.EnhancePrompt | backend/app/services/image_generator.py:76-85 | the prompt followed by `. Style: `, the style description, `. Color palette: `, primary, `, `, secondary and a final dot, each missing value empty |
| ImageGenerator.EnhancePromptKeepsPrompt | backend/app/services/image_generator.py:83 | for one brand, two prompts are enhanced alike if and only if they are equal |
| ImageGenerator.EnhancePromptEmpty | backend/app/services/image_generator.py:76-85 | with no brand data, the labels remain and every value is empty |
| ImageGenerator.AddTextOverlay | backend/app/services/image_generator.py:87-124 | appends a black shadow offset by 2 pixels and then the text, centred horizontally, with its bottom 15% of the height above the edge; the size is unchanged |
| ImageGenerator.LogoPosition | backend/app/services/image_generator.py:200-223 | each of the seven placements sets the named margins to the padding or centres that axis; an unknown name means bottom-right |
| ImageGenerator.LogoInside | backend/app/services/image_generator.py:200-223 | a logo that fits with its padding lies wholly inside the image at every placement |
| ImageGenerator.RescaleLogo | backend/app/services/image_generator.py:155-166 | the longer side becomes the target and the other follows the aspect ratio, rounded toward zero; a zero height raises |
| ImageGenerator.AspectScaling | backend/app/services/image_generator.py:160-166 | the scaled side equals the code's `target * aspect` and `target / aspect` |
| ImageGenerator.AddLogo | backend/app/services/image_generator.py:126-189 | with no URL, a fetch that fails, or a rescale that raises or reaches a side below one pixel, the image is untouched; otherwise exactly one paste of the rescaled logo at the placement for the brand's padding is appended, masked when it has alpha |
| ImageGenerator.AddLogoInside | backend/app/services/image_generator.py:145-183 | when the target size and twice the padding fit the width of an image at least as tall as wide, any pasted logo lies wholly inside the image |
| ImageGenerator.AddLogoDefaultsOnBase | backend/app/services/image_generator.py:145-183 | on the base image with defaults, a square logo is pasted as a 153-pixel square 30 pixels in from the bottom-right |
| ImageGenerator.CropBox | backend/app/services/image_generator.py:250-258 | the crop is exactly the target size, with the excess split as evenly as possible |
| ImageGenerator.CoverSize | backend/app/services/image_generator.py:236-249 | fails exactly when a ratio divides by zero; the relatively shorter side is fitted to the target |
| ImageGenerator.ResizeToSpecs | backend/app/services/image_generator.py:225-258 | a success has the target size (1080 by default) and appends exactly the cover resize and then the centred crop |
| ImageGenerator.ResizeCovers | backend/app/services/image_generator.py:225-258 | for a non-empty image and a positive target, resizing succeeds, and the crop lies inside the scaled image |
| ImageGenerator.GenerateImage | backend/app/services/image_generator.py:27-57 | a success starts from the base fill and has the spec's size |
| ImageGenerator.GenerateImageOrder | backend/app/services/image_generator.py:27-57 | for any positive size the pipeline succeeds, in order: fill, then shadow and text exactly when there is text, then at most one logo paste, then resize and crop |
| VideoGenerator.GenerateKeyframes | backend/app/services/video_generator.py:59-78 | one full-HD frame per keyframe (none for a count below one), each filled with the primary colour or dark blue |
| VideoGenerator.Animate | backend/app/services/video_generator.py:80-110 | the clip keeps the frames and duration, runs at 30 fps, and has no audio yet |
| VideoGenerator.BrandTone | backend/app/services/video_generator.py:112-157 | the brand's emotion, or `profesional` |
| VideoGenerator.AddVoiceover | backend/app/services/video_generator.py:112-140 | sets a voice-over of the text in the brand's tone, and nothing else changes |
| VideoGenerator.AddBackgroundMusic | backend/app/services/video_generator.py:142-157 | sets music in the brand's mood, and nothing else changes |
| VideoGenerator.AddLogoWatermark | backend/app/services/video_generator.py:159-190 | with no URL the clip is unchanged; otherwise it is flagged as having the logo, with a watermark carrying the brand's settings or the 12%/3%/bottom-right defaults, 85% opacity and a 0.5 s fade-in; frames, timing and audio are kept |
| VideoGenerator.WatermarkIdempotent | backend/app/services/video_generator.py:159-190 | watermarking twice is watermarking once |
| VideoGenerator.WatermarkFromBrandRecord | backend/app/services/video_generator.py:176-180 | a brand record always carries its own logo settings into the watermark, so its default logo spans 15%, not 12% |
| VideoGenerator.GenerateVideo | backend/app/services/video_generator.py:27-57 | three keyframes lasting 15 s by default; a voice-over exactly when one is asked for with non-empty text, otherwise music; with a logo URL the brand's watermark, with none no watermark and no logo flag; the platform spec is returned unchanged |
| VideoGenerator.GenerateAnimatedImage | backend/app/services/video_generator.py:230-250 | a 1080 by 1920 mp4 spec, five seconds with background music, and the logo flag and the brand's watermark exactly when the brand has a logo URL |
| BrandApi.ExtractBrandDNA | backend/app/api/brand_dna.py:25-54 | always answers `processing` with the given job id; the data is failed if and only if the extraction raised |
| BrandApi.ExtractFailureLooksStarted | backend/app/api/brand_dna.py:42-52 | an extraction that failed is still reported as processing, and its error appears only inside the data |
| BrandApi.UploadBrandLogo | backend/app/api/brand_dna.py:57-100 | a type outside PNG, SVG and JPEG is refused with 400 before anything is stored; a nameless file gives 500; otherwise the logo's format is the file's extension, it is transparent exactly for PNG, and it sits at the requested position, bottom-right by default |
| BrandApi.UploadedLogoUrlMatchesFormat | backend/app/api/brand_dna.py:79-90 | an uploaded logo's URL lies in the brand's logo folder and ends in the recorded format |
| BrandApi.UploadedLogoIsDefaultsPlusFile | backend/app/api/brand_dna.py:85-90 | the record differs from a URL-only logo in exactly the format, the transparency and the position |
| BrandApi.GetBrandDNA | backend/app/api/brand_dna.py:103-107 | every brand is reported missing with 404 |
| BrandApi.UpdateBrandDNA | backend/app/api/brand_dna.py:110-122 | acknowledges success for the named brand |
| BrandApi.UpdateIgnoresRequest | backend/app/api/brand_dna.py:110-122 | the answer does not depend on the requested changes |
| BrandApi.VerifyBrandDNA | backend/app/api/brand_dna.py:125-137 | acknowledges success for the named brand |
| GenerationApi.ParsePlatform | backend/app/api/generation.py:12-19 | only the six wire values are accepted, each as its own platform |
| GenerationApi.PlatformRoundTrip | backend/app/api/generation.py:12-19 | every platform survives a trip through its wire value |
| GenerationApi.ParseContentType | backend/app/api/generation.py:22-26 | only the three wire values are accepted, each as its own content type |
| GenerationApi.ContentTypeRoundTrip | backend/app/api/generation.py:22-26 | every content type survives a trip through its wire value |
| GenerationApi.SpecsTable | backend/app/api/generation.py:60-98 | every platform has a spec with a positive size; the reel is the only mp4 and the only entry with a longest duration, 90 s; all others are jpg |
| GenerationApi.SpecFor | backend/app/api/generation.py:115 | a lookup finds a spec exactly for the platforms in the table |
| GenerationApi.GetPlatformSpecs | backend/app/api/generation.py:196-199 | the table has six entries, one per platform |
| GenerationApi.MakeGenerationRequest | backend/app/api/generation.py:29-39 | valid if and only if brand, prompt and a known platform are given and any content type is known; the content type defaults to image and copy is included by default |
| GenerationApi.GenerateImage | backend/app/api/generation.py:101-135 | a platform without a spec is refused with 400; otherwise the job is queued with the platform's spec and the logo flag |
| GenerationApi.ImageAlwaysQueued | backend/app/api/generation.py:115-117 | every image request is queued, because every platform has a spec |
| GenerationApi.GenerateVideo | backend/app/api/generation.py:138-172 | a non-video content type is refused first; then a platform without an mp4 spec; a queued job carries an mp4 spec and the logo flag |
| GenerationApi.VideoAcceptedOnlyForReels | backend/app/api/generation.py:149-154 | a video request is queued if and only if it asks for video on Instagram reels, whose spec limits it to 90 s |
| GenerationApi.DefaultRequestIsNotVideo | backend/app/api/generation.py:32-33 | a request with no content type is an image request, which the video endpoint refuses |

## Left out

- Crawling (`_crawl_website`, a headless browser) is left out. The pipeline receives the crawled page, or the message of an exception raised in its guarded block. The crawler's own fallback, which answers any crawl error with a fixed demo page, is not built: that page reaches the model as an ordinary crawl.
- Image decoding, the 200-pixel pre-resize of the screenshot, and K-Means itself are opaque function parameters. So are Gemini calls, `json.loads`, the HTTP fetch of the logo, and font loading and text measurement.
- Prompt wording sent to the language model is not modelled. Only what the prompt quotes is: the first 3000 characters of the text, or the first five image URLs.
- Floating-point arithmetic is modelled as exact reals. Truncation to integers (`int()`) is modelled exactly.
- `strip` removes the ASCII whitespace, the separators U+001C–U+001F, U+0085 and U+00A0. Whitespace above U+00FF is not removed (U+1680, U+2000–U+200A, U+2028, U+2029, U+202F, U+205F, U+3000). `lower` folds ASCII only.
- Python dictionaries read with `.get` are modelled by their leaves as `Option` values. A key present with a `None` value, or with a value of the wrong type, is not modelled.
- ColorExtraction.ExtractColors: ranks the centres with the corrected lookup of each label's own centre, not the positional lookup of line 187 as written. The two agree whenever no cluster is empty; the as-written pass is ExtractColorsAsWritten.
- ImageGenerator.BaseImage: Pillow raises on a background colour string it cannot parse, and so does `draw.text` in ImageGenerator.AddTextOverlay; the model treats every fill and draw as succeeding.
- ImageGenerator.GenerateImageOrder: as with BaseImage, an unparseable colour would make the pipeline fail; the model does not represent colour parsing.
- VideoGenerator.GenerateKeyframes: an unparseable primary colour would make `Image.new` raise; the model does not represent colour parsing.
- ColorExtraction.Ranking: `numpy.argsort` is not stable, so the order among clusters with equal counts is left unspecified. The contract states only that counts never increase.
- ImageGenerator.ResizeToSpecs: Pillow's own failures are reduced to three conditions: division by zero, a resize to a side below one pixel, and a crop whose right edge lies left of its left edge. Resampling is not modelled.
- ImageGenerator.GenerateImage: the enhanced prompt is computed but not used by the placeholder base image. PNG encoding of the result is not modelled.
- Video rendering (`_render_video`) is a placeholder, and is not modelled beyond the clip record it receives.
- The `async` execution of every service and endpoint is modelled as a plain call.
- URL validation of `HttpUrl` fields is not modelled: URLs are strings, and pydantic's normalisation of them is not applied.
- `generate_copy` returns fixed placeholder text and is not modelled.
- `GeneratedContent` is declared but never built by any endpoint, so it is not modelled.
- The endpoints' `except Exception` answers of 500 are modelled only where the model has a failing step: the nameless logo upload. The other guarded bodies cannot fail in the model.
- `backend/app/main.py`, `backend/app/core/config.py` and `backend/app/api/health.py` are not part of this model.

## Findings

| source | as written | input that shows it | evidently intended | confidence | as-written member | corrected member |
|---|---|---|---|---|---|---|
| backend/app/services/brand_extractor.py:184-187 | `colors[argsort(-counts)]` indexes the centres by a label's position among the unique labels, not by the label itself | K-Means returns five centres and labels every pixel 1, leaving cluster 0 empty: the unique labels are `[1]`, the ranking is `[0]`, and the primary colour is centre 0, which holds no pixel | each ranked label's own centre, `colors[labels[argsort(-counts)]]`, so the primary is the centre of the most populated cluster | low: the clustering library usually reassigns empty clusters; not executed | ColorExtraction.RankedCentresAsWritten, ColorExtraction.RankedCentresAsWrittenMisattributes, ColorExtraction.ExtractColorsAsWritten | ColorExtraction.RankedCentres, ColorExtraction.RankedCentresHeadMostFrequent, ColorExtraction.ExtractColors, ColorExtraction.ExtractColorsOutcome |
