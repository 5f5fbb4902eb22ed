/** The brand-extraction pipeline around the colour pass: font-name cleaning and the
    typography record, the language-model tone and visual-style analyses with their
    fixed fallbacks and code-fence stripping, and the assembly of the final result.
    The crawler, the language model and the JSON parser are parameters. */
module BrandExtractor {
  import opened Wrappers
  import opened Text
  import opened Json
  import opened BrandModels
  import opened ColorExtraction

  /* ------------------------------------------------------------ typography */

  /** The font named when the page gives none. */
  const DefaultFont := "sans-serif"

  /** The first family of a CSS font stack: the text before the first comma, stripped of
      surrounding whitespace, with every double and single quote deleted. */
  function CleanFont(stack: string): (name: string)
    ensures ',' !in name && '"' !in name && '\'' !in name
    ensures |name| <= |stack|
  {
    var first := FirstSegment(stack, ',');
    var trimmed := Strip(first);
    var unquoted := RemoveChar(RemoveChar(trimmed, '"'), '\'');
    InfixChars(first, trimmed);
    unquoted
  }

  /** Only the first family of a stack matters. */
  lemma CleanFontFirstFamily(first: string, rest: string)
    requires ',' !in first
    ensures CleanFont(first + "," + rest) == CleanFont(first)
  {
    FirstSegmentBefore(first, rest, ',');
  }

  /** A quoted family name comes out without its quotes, whichever quote character is used. */
  lemma CleanFontUnquotes(name: string, q: char, rest: string)
    requires q == '"' || q == '\''
    requires ',' !in name && '"' !in name && '\'' !in name
    ensures CleanFont([q] + name + [q] + "," + rest) == name
  {
    var quoted := [q] + name + [q];
    QuotedIsOneTrimmedFamily(name, q);
    CleanFontFirstFamily(quoted, rest);
    Unquote(name, q);
  }

  /** A quoted name holds no comma and has no whitespace at its ends. */
  lemma QuotedIsOneTrimmedFamily(name: string, q: char)
    requires q == '"' || q == '\''
    requires ',' !in name
    ensures ',' !in [q] + name + [q]
    ensures Strip([q] + name + [q]) == [q] + name + [q]
  {
    var quoted := [q] + name + [q];
    assert quoted[0] == q && quoted[|quoted| - 1] == q;
    StripTrimmed(quoted);
  }

  /** Deleting both kinds of quote from a quoted name leaves the name. */
  lemma Unquote(name: string, q: char)
    requires q == '"' || q == '\''
    requires '"' !in name && '\'' !in name
    ensures RemoveChar(RemoveChar([q] + name + [q], '"'), '\'') == name
  {
    if q == '"' {
      RemoveWrapping(name, q);
      RemoveAbsent(name, '\'');
    } else {
      RemoveAbsent([q] + name + [q], '"');
      RemoveWrapping(name, q);
    }
  }

  /** Deleting the character that wraps a name leaves the name. */
  lemma RemoveWrapping(name: string, q: char)
    requires q !in name
    ensures RemoveChar([q] + name + [q], q) == name
  {
    RemoveCharConcat([q] + name, [q], q);
    RemoveCharConcat([q], name, q);
    RemoveAbsent(name, q);
    assert RemoveChar([q], q) == "";
  }

  /** A clean family name is its own cleaning, and the empty stack cleans to the empty name:
      `split` always yields a first piece, so the code's `sans-serif` branch is never taken. */
  lemma CleanFontFixpoint(name: string)
    requires ',' !in name && '"' !in name && '\'' !in name
    requires |name| == 0 || (!IsSpace(name[0]) && !IsSpace(name[|name| - 1]))
    ensures CleanFont(name) == name
    ensures CleanFont("") == ""
  {
    StripTrimmed(name);
    RemoveAbsent(name, '"');
    RemoveAbsent(name, '\'');
  }

  /** The typography record read from the page's computed styles: each family cleaned,
      `sans-serif` for a missing style, Google fonts assumed, `sans-serif` fallbacks. */
  function ExtractTypography(css: map<string, string>): (t: VectorTipografico)
    ensures t.headings == CleanFont(if "headingFont" in css then css["headingFont"] else DefaultFont)
    ensures t.body == CleanFont(if "bodyFont" in css then css["bodyFont"] else DefaultFont)
    ensures "headingFont" !in css ==> t.headings == DefaultFont
    ensures "bodyFont" !in css ==> t.body == DefaultFont
    ensures t.fallbackHeadings == DefaultFont && t.fallbackBody == DefaultFont
  {
    CleanFontFixpoint(DefaultFont);
    VectorTipografico(
      CleanFont(if "headingFont" in css then css["headingFont"] else DefaultFont),
      CleanFont(if "bodyFont" in css then css["bodyFont"] else DefaultFont),
      true, DefaultFont, DefaultFont)
  }

  /** The extracted typography is exactly the record the schema builds from the two families
      with every other field left to its default. */
  lemma TypographyMatchesSchema(css: map<string, string>)
    ensures var t := ExtractTypography(css);
      MakeVectorTipografico(Some(t.headings), Some(t.body), None, None, None) == Success(t)
  {
  }

  /* ---------------------------------------------------------- code fences */

  const Fence := "```"

  /** A reply wrapped in a Markdown code fence is reduced to the text between the first two
      fences, less a leading `json` tag; any other reply is left as it is. */
  function StripFence(text: string): (r: string)
    ensures !(Fence <= text) ==> r == text
    ensures Fence <= text ==> !Contains(r, Fence) && |r| <= |text| - |Fence|
    ensures Fence <= text ==> r <= text[|Fence|..] || "json" + r <= text[|Fence|..]
  {
    if Fence <= text then
      var inner := BeforeFirst(text[|Fence|..], Fence);
      var r := DropJsonTag(inner);
      NoMatchInSuffix(inner, r, Fence);
      r
    else text
  }

  /** Drops a leading `json` language tag. */
  function DropJsonTag(t: string): (r: string)
    ensures |r| <= |t| && t[|t| - |r|..] == r
    ensures "json" <= t ==> "json" + r == t
    ensures !("json" <= t) ==> r == t
  {
    if "json" <= t then t[4..] else t
  }

  /** A string without `pat` has no `pat` in any of its suffixes. */
  lemma NoMatchInSuffix(s: string, r: string, pat: string)
    requires |r| <= |s| && s[|s| - |r|..] == r && !Contains(s, pat)
    ensures !Contains(r, pat)
  {
    var d := |s| - |r|;
    forall i | 0 <= i <= |r| ensures !OccursAt(r, pat, i) {
      if OccursAt(r, pat, i) {
        assert s[d + i..d + i + |pat|] == r[i..i + |pat|];
        assert OccursAt(s, pat, d + i);
      }
    }
  }

  /** A body fenced as ```` ```json … ``` ```` comes back exactly, whatever follows the closing fence,
      as long as the closing fence is the first one after the opening fence. */
  lemma StripFenceJson(body: string, tail: string)
    requires FirstMatchAtEnd(body, Fence)
    ensures StripFence(Fence + "json" + body + Fence + tail) == body
  {
    var text := Fence + "json" + body + Fence + tail;
    assert Fence <= text;
    assert text[|Fence|..] == ("json" + body) + Fence + tail;
    FirstMatchAtEndPrefix("json", body, Fence);
    BeforeFirstDelimited("json" + body, Fence, tail);
  }

  /** A body fenced without a language tag comes back exactly, unless it itself starts with `json`. */
  lemma StripFencePlain(body: string, tail: string)
    requires FirstMatchAtEnd(body, Fence) && !("json" <= body)
    ensures StripFence(Fence + body + Fence + tail) == body
  {
    var text := Fence + body + Fence + tail;
    assert Fence <= text;
    assert text[|Fence|..] == body + Fence + tail;
    BeforeFirstDelimited(body, Fence, tail);
  }

  /** A reply that opens a fence and never closes it keeps all the text after the opening fence. */
  lemma StripFenceUnclosed(body: string)
    requires !Contains(body, Fence) && !("json" <= body)
    ensures StripFence(Fence + body) == body
  {
    var text := Fence + body;
    assert Fence <= text;
    assert text[|Fence|..] == body;
  }

  /** The text handed to the JSON parser: the reply stripped of whitespace, then of its fence. */
  function Payload(reply: string): (r: string)
    ensures Fence <= Strip(reply) ==> !Contains(r, Fence)
    ensures !(Fence <= Strip(reply)) ==> r == Strip(reply)
  {
    StripFence(Strip(reply))
  }

  /* ----------------------------------------------------- language-model steps */

  /** What is asked of the language model: a tone reading of an excerpt of the page text,
      or a visual-style reading of some image URLs. The prompt wording is not modelled. */
  datatype Prompt = TonePrompt(excerpt: string) | VisualPrompt(imageUrls: seq<string>)

  /** How much page text the tone prompt quotes. */
  const ToneExcerptLength := 3000

  /** How many image URLs the visual-style prompt quotes and the result keeps. */
  const ReferenceImageCount := 5

  /** Python's `s[:n]`. */
  function Take<T>(s: seq<T>, n: nat): (r: seq<T>)
    ensures |r| == if |s| < n then |s| else n
    ensures r <= s
  {
    if |s| < n then s else s[..n]
  }

  /** The fixed tone used when the model is unreachable or its reply is not JSON. */
  const DefaultVocabulary := ["innovación", "calidad", "confianza", "servicio", "excelencia"]
  const DefaultSystemPrompt :=
    "Actúa como un experto en marketing digital que usa un tono "
    + "profesional pero accesible, evitando jerga innecesaria y "
    + "priorizando la claridad y la confianza."
  const DefaultTone := JObj(map[
    "formalidad" := JNum(0.7),
    "emocion" := JStr("profesional"),
    "longitud_sentencia" := JStr("media"),
    "vocabulario" := JArr(Strings(DefaultVocabulary)),
    "system_prompt" := JStr(DefaultSystemPrompt)])

  /** The tone analysis: whatever JSON the model's reply parses to, or the fixed tone when
      the model call fails or the reply does not parse. Only the first 3000 characters of
      the page text reach the model. */
  function AnalyzeTone(
    textContent: string,
    ask: Prompt -> Option<string>,
    parse: string -> Option<Json>): (r: Json)
    ensures ask(TonePrompt(Take(textContent, ToneExcerptLength))).None? ==> r == DefaultTone
    ensures var reply := ask(TonePrompt(Take(textContent, ToneExcerptLength)));
      reply.Some? && parse(Payload(reply.value)).Some? ==> r == parse(Payload(reply.value)).value
    ensures var reply := ask(TonePrompt(Take(textContent, ToneExcerptLength)));
      reply.Some? && parse(Payload(reply.value)).None? ==> r == DefaultTone
  {
    match ask(TonePrompt(Take(textContent, ToneExcerptLength)))
    case None => DefaultTone
    case Some(reply) =>
      match parse(Payload(reply))
      case None => DefaultTone
      case Some(j) => j
  }

  /** Two pages whose texts agree on their first 3000 characters get the same tone. */
  lemma ToneSeesOnlyExcerpt(a: string, b: string, ask: Prompt -> Option<string>, parse: string -> Option<Json>)
    requires Take(a, ToneExcerptLength) == Take(b, ToneExcerptLength)
    ensures AnalyzeTone(a, ask, parse) == AnalyzeTone(b, ask, parse)
  {
  }

  /** A fenced JSON reply is parsed from exactly the text inside the fence. */
  lemma ToneFromFencedReply(
    textContent: string, body: string,
    ask: Prompt -> Option<string>, parse: string -> Option<Json>)
    requires FirstMatchAtEnd(body, Fence)
    requires ask(TonePrompt(Take(textContent, ToneExcerptLength))) == Some(Fence + "json" + body + Fence)
    requires parse(body).Some?
    ensures AnalyzeTone(textContent, ask, parse) == parse(body).value
  {
    var reply := Fence + "json" + body + Fence;
    StripTrimmed(reply);
    StripFenceJson(body, "");
    assert reply == Fence + "json" + body + Fence + "";
  }

  /** The tone record the schema would build from a tone result. */
  function ToneRecord(j: Json): (r: Result<VectorSemantico, seq<Issue>>)
    ensures r.Success? ==> ValidSemantico(r.value)
  {
    MakeVectorSemantico(j.GetNum("formalidad"), j.GetStr("emocion"), j.GetStr("longitud_sentencia"),
      j.GetStrList("vocabulario"), j.GetStr("system_prompt"))
  }

  /** The fixed tone is a valid tone record: formality 0.7, professional, medium sentences. */
  lemma DefaultToneValid()
    ensures ToneRecord(DefaultTone) == Success(VectorSemantico(0.7, Professional, "media", DefaultVocabulary, DefaultSystemPrompt))
  {
    StrListRoundTrip(DefaultTone.fields, "vocabulario", DefaultVocabulary);
  }

  const DefaultPhotoStyle :=
    "Fotografía profesional con iluminación natural, "
    + "paleta de colores coherente, enfoque nítido, "
    + "composición equilibrada."
  const DefaultVisualElements := ["limpio", "moderno", "profesional"]
  const DefaultImageRecommendation := "Estilo corporativo moderno con colores de marca"

  /** The fixed visual style used when the model is unreachable or its reply is not a JSON object. */
  function DefaultVisual(images: seq<string>): (r: Json)
    ensures r.JObj?
  {
    JObj(map[
      "estilo_fotografico" := JStr(DefaultPhotoStyle),
      "elementos_visuales" := JArr(Strings(DefaultVisualElements)),
      "recomendacion_imagen" := JStr(DefaultImageRecommendation),
      "referencia_imagenes_urls" := JArr(Strings(Take(images, ReferenceImageCount))),
      "ip_adapter_embedding_id" := JNull])
  }

  /** The visual-style analysis: the parsed reply when it is an object, with the first five image
      URLs and a null embedding id written over it; otherwise the fixed style. Storing a key into
      anything but an object raises, which the code catches and answers with the fixed style. */
  function AnalyzeVisualStyle(
    images: seq<string>,
    ask: Prompt -> Option<string>,
    parse: string -> Option<Json>): (r: Json)
    ensures r.JObj?
    ensures r.Get("referencia_imagenes_urls") == Some(JArr(Strings(Take(images, ReferenceImageCount))))
    ensures r.Get("ip_adapter_embedding_id") == Some(JNull)
    ensures ask(VisualPrompt(Take(images, ReferenceImageCount))).None? ==> r == DefaultVisual(images)
    ensures var reply := ask(VisualPrompt(Take(images, ReferenceImageCount)));
      reply.Some? && (parse(Payload(reply.value)).None? || !parse(Payload(reply.value)).value.JObj?) ==>
        r == DefaultVisual(images)
    ensures var reply := ask(VisualPrompt(Take(images, ReferenceImageCount)));
      reply.Some? && parse(Payload(reply.value)).Some? && parse(Payload(reply.value)).value.JObj? ==>
        var fields := parse(Payload(reply.value)).value.fields;
        && r.fields.Keys == fields.Keys + {"referencia_imagenes_urls", "ip_adapter_embedding_id"}
        && forall key :: (key in fields
            && key != "referencia_imagenes_urls" && key != "ip_adapter_embedding_id") ==>
          r.Get(key) == Some(fields[key])
  {
    match ask(VisualPrompt(Take(images, ReferenceImageCount)))
    case None => DefaultVisual(images)
    case Some(reply) =>
      match parse(Payload(reply))
      case Some(JObj(fields)) => JObj(WithReferences(fields, images))
      case _ => DefaultVisual(images)
  }

  /** A parsed object with the first five image URLs and a null embedding id written into it. */
  function WithReferences(fields: map<string, Json>, images: seq<string>): (m: map<string, Json>)
    ensures m.Keys == fields.Keys + {"referencia_imagenes_urls", "ip_adapter_embedding_id"}
    ensures m["referencia_imagenes_urls"] == JArr(Strings(Take(images, ReferenceImageCount)))
    ensures m["ip_adapter_embedding_id"] == JNull
    ensures forall key :: key in fields && key != "referencia_imagenes_urls" && key != "ip_adapter_embedding_id" ==>
      m[key] == fields[key]
  {
    fields["referencia_imagenes_urls" := JArr(Strings(Take(images, ReferenceImageCount)))]
      ["ip_adapter_embedding_id" := JNull]
  }

  /** The visual record the schema would build from a visual-style result. */
  function VisualRecord(j: Json): (r: Result<VectorVisual, seq<Issue>>)
    ensures r.Success? <==> j.GetStr("estilo_fotografico").Some?
  {
    var refs := j.GetStrList("referencia_imagenes_urls");
    MakeVectorVisual(j.GetStr("estilo_fotografico"), refs, j.GetStr("ip_adapter_embedding_id"))
  }

  /** The fixed visual style is a valid visual record keeping the first five images and no embedding. */
  lemma DefaultVisualValid(images: seq<string>)
    ensures VisualRecord(DefaultVisual(images))
      == Success(VectorVisual(DefaultPhotoStyle, Take(images, ReferenceImageCount), None))
  {
    var d := DefaultVisual(images);
    StrListRoundTrip(d.fields, "referencia_imagenes_urls", Take(images, ReferenceImageCount));
  }

  /** Whatever the model answers, a visual record built from the analysis keeps exactly the first
      five image URLs and no embedding id. It is built whenever the fixed style is used, and from a
      parsed object exactly when that object has a string photographic style. */
  lemma VisualStyleRecord(images: seq<string>, ask: Prompt -> Option<string>, parse: string -> Option<Json>)
    ensures var r := VisualRecord(AnalyzeVisualStyle(images, ask, parse));
      r.Success? ==>
        r.value.referenciaImagenesUrls == Take(images, ReferenceImageCount) && r.value.ipAdapterEmbeddingId.None?
    ensures var reply := ask(VisualPrompt(Take(images, ReferenceImageCount)));
      var r := VisualRecord(AnalyzeVisualStyle(images, ask, parse));
      && (reply.None? ==> r.Success?)
      && (reply.Some? && (parse(Payload(reply.value)).None? || !parse(Payload(reply.value)).value.JObj?) ==> r.Success?)
      && (reply.Some? && parse(Payload(reply.value)).Some? && parse(Payload(reply.value)).value.JObj? ==>
           var fields := parse(Payload(reply.value)).value.fields;
           (r.Success? <==> "estilo_fotografico" in fields && fields["estilo_fotografico"].JStr?))
  {
    var j := AnalyzeVisualStyle(images, ask, parse);
    StrListRoundTrip(j.fields, "referencia_imagenes_urls", Take(images, ReferenceImageCount));
    DefaultVisualValid(images);
  }

  /* ------------------------------------------------------------ the pipeline */

  /** What the crawler hands over for one page. A missing title is `None`. */
  datatype CrawlData = CrawlData(
    title: Option<string>,
    screenshots: seq<seq<bv8>>,
    textContent: string,
    cssData: map<string, string>,
    images: seq<string>)

  /** The outside services the pipeline consults: image decoding, K-Means, the language model
      and the JSON parser. */
  datatype Services = Services(
    decode: seq<bv8> -> Option<seq<Rgb>>,
    kmeans: seq<Rgb> -> Option<Clustering>,
    ask: Prompt -> Option<string>,
    parse: string -> Option<Json>)

  /** The pipeline's result: every vector with status `complete`, or status `failed` with the error text. */
  datatype Extraction =
    | Complete(
        brandName: string,
        websiteUrl: string,
        vectorCromatico: VectorCromatico,
        vectorTipografico: VectorTipografico,
        vectorSemantico: Json,
        vectorVisual: Json)
    | Failed(error: string)

  /** The brand name reported: the caller's name unless absent or empty, then the page title,
      then `Unknown` when the crawl gave no title. An empty title is kept as it is. */
  function BrandName(given: Option<string>, title: Option<string>): (name: string)
    ensures given.Some? && given.value != "" ==> name == given.value
    ensures (given.None? || given.value == "") && title.Some? ==> name == title.value
    ensures (given.None? || given.value == "") && title.None? ==> name == "Unknown"
  {
    if given.Some? && given.value != "" then given.value else title.GetOr("Unknown")
  }

  /** Runs the pipeline on what the crawl step hands over. `Failure(e)` stands for an exception
      raised inside the pipeline's guarded block before assembly; it yields `Failed` with its
      message. The crawler itself never raises (on any error it substitutes a fixed demo page,
      which this model does not build), and every later step catches its own errors, so
      otherwise the result is complete. */
  function ExtractFromUrl(url: string, brandName: Option<string>, crawl: Result<CrawlData, string>, svc: Services): (r: Extraction)
    ensures r.Failed? <==> crawl.Failure?
    ensures r.Failed? ==> r.error == crawl.error
    ensures r.Complete? ==>
      && r.websiteUrl == url
      && r.brandName == BrandName(brandName, crawl.value.title)
      && r.vectorCromatico == ExtractColors(crawl.value.screenshots, svc.decode, svc.kmeans)
      && r.vectorTipografico == ExtractTypography(crawl.value.cssData)
      && r.vectorSemantico == AnalyzeTone(crawl.value.textContent, svc.ask, svc.parse)
      && r.vectorVisual == AnalyzeVisualStyle(crawl.value.images, svc.ask, svc.parse)
  {
    match crawl
    case Failure(e) => Failed(e)
    case Success(page) =>
      Complete(
        BrandName(brandName, page.title),
        url,
        ExtractColors(page.screenshots, svc.decode, svc.kmeans),
        ExtractTypography(page.cssData),
        AnalyzeTone(page.textContent, svc.ask, svc.parse),
        AnalyzeVisualStyle(page.images, svc.ask, svc.parse))
  }

  /** A page with no screenshot, no styles and an unreachable model still yields a complete result
      made of the defaults: the fixed palette, `sans-serif` everywhere, the fixed tone and style. */
  lemma ExtractFromBarePage(url: string, brandName: Option<string>, page: CrawlData, svc: Services)
    requires |page.screenshots| == 0 && page.cssData == map[]
    requires forall p: Prompt :: svc.ask(p).None?
    ensures var r := ExtractFromUrl(url, brandName, Success(page), svc);
      && r.Complete?
      && r.vectorCromatico == DefaultPalette
      && r.vectorTipografico == VectorTipografico(DefaultFont, DefaultFont, true, DefaultFont, DefaultFont)
      && r.vectorSemantico == DefaultTone
      && r.vectorVisual == DefaultVisual(page.images)
  {
    assert svc.ask(TonePrompt(Take(page.textContent, ToneExcerptLength))).None?;
    assert svc.ask(VisualPrompt(Take(page.images, ReferenceImageCount))).None?;
  }
}
