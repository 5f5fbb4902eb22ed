/** The branded-image pipeline: a placeholder base image, an optional text overlay,
    the logo, and a cover-resize with centre crop to the platform size. Pixels are not
    modelled: an image is its size and the ordered list of operations applied to it.
    Fetching the logo and measuring text are parameters. */
module ImageGenerator {
  import opened Wrappers
  import opened BrandDict

  /* ------------------------------------------------------------ arithmetic */

  /** Python's `int(x)` on a float: drops the fraction, rounding toward zero. */
  function Trunc(x: real): (n: int)
    ensures x >= 0.0 ==> n as real <= x < n as real + 1.0
    ensures x < 0.0 ==> n as real - 1.0 < x <= n as real
  {
    if x >= 0.0 then x.Floor else -((-x).Floor)
  }

  /** Two margins that split a gap as evenly as integers allow, any odd pixel going to the second. */
  predicate Centred(first: int, second: int) {
    0 <= second - first <= 1
  }

  /* ----------------------------------------------------------------- images */

  /** One drawing step. */
  datatype Op =
    | Fill(colour: string)
    | DrawText(text: string, x: int, y: int, colour: string)
    | PasteLogo(url: string, x: int, y: int, width: int, height: int, masked: bool)
    | Resize(width: int, height: int)
    | Crop(left: int, top: int, right: int, bottom: int)

  /** An image: its current size and every step applied so far, oldest first. */
  datatype Image = Image(width: int, height: int, ops: seq<Op>)

  /** A fetched logo: its size and whether it carries an alpha channel (mode `RGBA`). */
  datatype Logo = Logo(width: int, height: int, rgba: bool)

  /* ------------------------------------------------------------ base image */

  const BaseSize := 1024
  const DefaultBackground := "#FFFFFF"

  /** The placeholder base image: 1024 square, filled with the brand background or white. */
  function BaseImage(brand: Brand): (img: Image)
    ensures img.width == BaseSize && img.height == BaseSize
    ensures img.ops == [Fill(brand.colours.background.GetOr(DefaultBackground))]
  {
    Image(BaseSize, BaseSize, [Fill(brand.colours.background.GetOr(DefaultBackground))])
  }

  /** The generation prompt with the brand's photographic style and first two colours appended;
      an absent field is rendered as the empty string. */
  function EnhancePrompt(prompt: string, brand: Brand): (r: string)
    ensures r == prompt + ". Style: " + brand.photoStyle.GetOr("")
      + ". Color palette: " + brand.colours.primary.GetOr("") + ", " + brand.colours.secondary.GetOr("") + "."
  {
    var style := brand.photoStyle.GetOr("");
    var primary := brand.colours.primary.GetOr("");
    var secondary := brand.colours.secondary.GetOr("");
    prompt + ". Style: " + style + ". Color palette: " + primary + ", " + secondary + "."
  }

  /** The enriched prompt keeps the caller's prompt recoverable: two prompts enriched for the same
      brand differ whenever the prompts do. Only the style and the first two colours of the brand
      are read. */
  lemma EnhancePromptKeepsPrompt(p: string, q: string, a: Brand, b: Brand)
    requires a.photoStyle.GetOr("") == b.photoStyle.GetOr("")
    requires a.colours.primary.GetOr("") == b.colours.primary.GetOr("")
    requires a.colours.secondary.GetOr("") == b.colours.secondary.GetOr("")
    ensures EnhancePrompt(p, a) == EnhancePrompt(q, b) <==> p == q
  {
    var tail := ". Style: " + a.photoStyle.GetOr("") + ". Color palette: " + a.colours.primary.GetOr("")
      + ", " + a.colours.secondary.GetOr("") + ".";
    assert EnhancePrompt(p, a) == p + tail;
    assert EnhancePrompt(q, b) == q + tail;
    if p + tail == q + tail {
      assert |p| == |q|;
      assert p == (p + tail)[..|p|];
      assert q == (q + tail)[..|q|];
    }
  }

  /** With nothing known about the brand, the enriched prompt keeps its labels and leaves every value empty. */
  lemma EnhancePromptEmpty(prompt: string)
    ensures EnhancePrompt(prompt, EmptyBrand) == prompt + ". Style: . Color palette: , ."
  {
  }

  /* ----------------------------------------------------------- text overlay */

  const ShadowColour := "#000000"
  const ShadowOffset := 2
  const DefaultTextColour := "#FFFFFF"

  /** Draws `text` centred horizontally in the lower part of the image: a black shadow two pixels
      down and right, then the text in the brand's text-on-primary colour. `measure` gives the
      text's bounding-box width and height in the font in use. */
  function AddTextOverlay(image: Image, text: string, brand: Brand, measure: string -> (int, int)): (r: Image)
    ensures r.width == image.width && r.height == image.height
    ensures |r.ops| == |image.ops| + 2 && r.ops[..|image.ops|] == image.ops
    ensures var shadow := r.ops[|image.ops|]; var main := r.ops[|image.ops| + 1];
      && shadow.DrawText? && main.DrawText?
      && shadow.text == text && main.text == text
      && shadow.colour == ShadowColour
      && main.colour == brand.colours.textOnPrimary.GetOr(DefaultTextColour)
      && shadow.x == main.x + ShadowOffset && shadow.y == main.y + ShadowOffset
      && Centred(main.x, image.width - measure(text).0 - main.x)
      && image.height - main.y - measure(text).1 == Trunc(image.height as real * 0.15)
  {
    var (tw, th) := measure(text);
    var x := (image.width - tw) / 2;
    var y := image.height - th - Trunc(image.height as real * 0.15);
    image.(ops := image.ops + [
      DrawText(text, x + ShadowOffset, y + ShadowOffset, ShadowColour),
      DrawText(text, x, y, brand.colours.textOnPrimary.GetOr(DefaultTextColour))])
  }

  /* ---------------------------------------------------------- logo placement */

  /** A position on the image, in pixels from the top-left corner. */
  datatype Point = Point(x: int, y: int)

  /** The seven named placements. */
  const PositionNames := ["top-left", "top-right", "top-center", "bottom-left", "bottom-right", "bottom-center", "center"]

  /** Where the logo's top-left corner goes. Corners sit `padding` from their two edges, a
      `-center` placement centres that axis, and an unknown name falls back to bottom-right.
      Stated through the four margins: left `x`, right `imgW - logoW - x`, top `y`, bottom `imgH - logoH - y`. */
  function LogoPosition(imgW: int, imgH: int, logoW: int, logoH: int, position: string, padding: int): (p: Point)
    ensures var left := p.x; var right := imgW - logoW - p.x;
      var top := p.y; var bottom := imgH - logoH - p.y;
      && (position == "top-left" ==> left == padding && top == padding)
      && (position == "top-right" ==> right == padding && top == padding)
      && (position == "top-center" ==> Centred(left, right) && top == padding)
      && (position == "bottom-left" ==> left == padding && bottom == padding)
      && (position == "bottom-right" ==> right == padding && bottom == padding)
      && (position == "bottom-center" ==> Centred(left, right) && bottom == padding)
      && (position == "center" ==> Centred(left, right) && Centred(top, bottom))
      && (position !in PositionNames ==> right == padding && bottom == padding)
  {
    var table := map[
      "top-left" := Point(padding, padding),
      "top-right" := Point(imgW - logoW - padding, padding),
      "top-center" := Point((imgW - logoW) / 2, padding),
      "bottom-left" := Point(padding, imgH - logoH - padding),
      "bottom-right" := Point(imgW - logoW - padding, imgH - logoH - padding),
      "bottom-center" := Point((imgW - logoW) / 2, imgH - logoH - padding),
      "center" := Point((imgW - logoW) / 2, (imgH - logoH) / 2)];
    assert table.Keys == set k | k in PositionNames;
    if position in table then table[position] else table["bottom-right"]
  }

  /** A logo that fits with its padding on both sides lies wholly inside the image wherever it is placed. */
  lemma LogoInside(imgW: int, imgH: int, logoW: int, logoH: int, position: string, padding: int)
    requires 0 <= padding && 0 <= logoW && 0 <= logoH
    requires logoW + 2 * padding <= imgW && logoH + 2 * padding <= imgH
    ensures var p := LogoPosition(imgW, imgH, logoW, logoH, position, padding);
      0 <= p.x && p.x + logoW <= imgW && 0 <= p.y && p.y + logoH <= imgH
  {
  }

  /* ------------------------------------------------------------- logo sizing */

  const DefaultMaxSizePercent: real := 0.15
  const DefaultPaddingPercent: real := 0.03
  const DefaultPosition := "bottom-right"

  /** The logo's new size: its longer side (the width when strictly wider than tall, else the height)
      becomes `target`, the other side follows the aspect ratio, rounded toward zero. A zero height
      makes the ratio raise (`None`). */
  function RescaleLogo(target: int, logoW: int, logoH: int): (r: Option<(int, int)>)
    ensures r.None? <==> logoH == 0
    ensures r.Some? && logoW as real / logoH as real > 1.0 ==> r.value.0 == target
    ensures r.Some? && logoW as real / logoH as real <= 1.0 ==> r.value.1 == target
    ensures r.Some? && 0 < logoH < logoW && 0 <= target ==>
      r.value.1 as real <= Scaled(target, logoH, logoW) < r.value.1 as real + 1.0
    ensures r.Some? && 0 < logoW <= logoH && 0 <= target ==>
      r.value.0 as real <= Scaled(target, logoW, logoH) < r.value.0 as real + 1.0
  {
    if logoH == 0 then None
    else if logoW as real / logoH as real > 1.0 then
      // `target / (logoW / logoH)`, written without the intermediate ratio
      assert logoW != 0;
      Some((target, Trunc(Scaled(target, logoH, logoW))))
    else
      // `target * (logoW / logoH)`
      Some((Trunc(Scaled(target, logoW, logoH)), target))
  }

  /** `t * num / den` over the reals. */
  function Scaled(t: int, num: int, den: int): (x: real)
    requires den != 0
    ensures 0 <= t && 0 <= num && 0 < den ==> x >= 0.0
  {
    assert 0 <= t && 0 <= num ==> t as real * num as real >= 0.0;
    t as real * num as real / den as real
  }

  /** Scaling by a ratio of one leaves the value as it is. */
  lemma ScaledSelf(t: int, n: int)
    requires n != 0
    ensures Scaled(t, n, n) == t as real
  {
    var x := n as real;
    assert x / x == 1.0;
    assert t as real * x / x == t as real * (x / x);
  }

  /** `Scaled` is the code's `target * aspect` and `target / aspect`, with `aspect = w / h`. */
  lemma AspectScaling(t: int, w: int, h: int)
    requires h != 0
    ensures Scaled(t, w, h) == t as real * (w as real / h as real)
    ensures w != 0 ==> Scaled(t, h, w) == t as real / (w as real / h as real)
  {
  }

  /** The logo's longer side: `int(width * max_size_percent)`, 15% of the width by default. */
  function LogoTarget(image: Image, brand: Brand): int {
    Trunc(image.width as real * brand.logo.maxSizePercent.GetOr(DefaultMaxSizePercent))
  }

  /** The logo's distance from the edges: `int(width * padding_percent)`, 3% of the width by default. */
  function LogoPadding(image: Image, brand: Brand): int {
    Trunc(image.width as real * brand.logo.paddingPercent.GetOr(DefaultPaddingPercent))
  }

  /** Adds the brand logo. Without a logo URL, or when fetching the logo fails, its height is zero,
      or it would be rescaled to a side below one pixel, the image comes back untouched; otherwise
      exactly one paste of the rescaled logo is appended at the brand's position, masked by its own
      alpha when it has one. The image's size never changes. */
  function AddLogo(image: Image, brand: Brand, fetch: string -> Option<Logo>): (r: Image)
    ensures r.width == image.width && r.height == image.height
    ensures !Truthy(brand.logo.logoUrl) ==> r == image
    ensures Truthy(brand.logo.logoUrl) && fetch(brand.logo.logoUrl.value).None? ==> r == image
    ensures Truthy(brand.logo.logoUrl) && fetch(brand.logo.logoUrl.value).Some? ==>
      var url := brand.logo.logoUrl.value;
      var logo := fetch(url).value;
      var size := RescaleLogo(LogoTarget(image, brand), logo.width, logo.height);
      && (size.None? || size.value.0 < 1 || size.value.1 < 1 ==> r == image)
      && (size.Some? && size.value.0 >= 1 && size.value.1 >= 1 ==>
           var p := LogoPosition(image.width, image.height, size.value.0, size.value.1,
             brand.logo.preferredPosition.GetOr(DefaultPosition), LogoPadding(image, brand));
           r.ops == image.ops + [PasteLogo(url, p.x, p.y, size.value.0, size.value.1, logo.rgba)])
  {
    if !Truthy(brand.logo.logoUrl) then image
    else
      var url := brand.logo.logoUrl.value;
      match fetch(url)
      case None => image
      case Some(logo) =>
        match RescaleLogo(LogoTarget(image, brand), logo.width, logo.height)
        case None => image
        case Some(size) =>
          if size.0 < 1 || size.1 < 1 then image
          else
            var p := LogoPosition(image.width, image.height, size.0, size.1,
              brand.logo.preferredPosition.GetOr(DefaultPosition), LogoPadding(image, brand));
            image.(ops := image.ops + [PasteLogo(url, p.x, p.y, size.0, size.1, logo.rgba)])
  }

  /** On an image no wider than tall, where the logo's longer side and its padding on both sides
      fit across the width, any logo that is pasted lies wholly inside the image. */
  lemma AddLogoInside(image: Image, brand: Brand, fetch: string -> Option<Logo>)
    requires 0 < image.width <= image.height
    requires 0 <= LogoTarget(image, brand) && 0 <= LogoPadding(image, brand)
    requires LogoTarget(image, brand) + 2 * LogoPadding(image, brand) <= image.width
    requires Truthy(brand.logo.logoUrl) && fetch(brand.logo.logoUrl.value).Some? ==>
      fetch(brand.logo.logoUrl.value).value.width > 0 && fetch(brand.logo.logoUrl.value).value.height > 0
    ensures var r := AddLogo(image, brand, fetch);
      |r.ops| > |image.ops| ==>
        && |r.ops| == |image.ops| + 1
        && var m := r.ops[|image.ops|];
          m.PasteLogo? && 0 <= m.x && m.x + m.width <= image.width && 0 <= m.y && m.y + m.height <= image.height
  {
    var r := AddLogo(image, brand, fetch);
    if |r.ops| > |image.ops| {
      var url := brand.logo.logoUrl.value;
      var logo := fetch(url).value;
      var target := LogoTarget(image, brand);
      var padding := LogoPadding(image, brand);
      var position := brand.logo.preferredPosition.GetOr(DefaultPosition);
      var size := RescaleLogo(target, logo.width, logo.height);
      assert size.Some? && size.value.0 >= 1 && size.value.1 >= 1;
      var p := LogoPosition(image.width, image.height, size.value.0, size.value.1, position, padding);
      assert r.ops == image.ops + [PasteLogo(url, p.x, p.y, size.value.0, size.value.1, logo.rgba)];
      RescaledWithin(target, logo.width, logo.height);
      LogoInside(image.width, image.height, size.value.0, size.value.1, position, padding);
    }
  }

  /** A logo with positive sides is rescaled to sides of at most `target`. */
  lemma RescaledWithin(target: int, logoW: int, logoH: int)
    requires 0 <= target && 0 < logoW && 0 < logoH
    ensures var r := RescaleLogo(target, logoW, logoH);
      r.Some? && r.value.0 <= target && r.value.1 <= target
  {
    if logoW as real / logoH as real > 1.0 {
      RatioAboveOne(logoW, logoH);
      ScaledAtMost(target, logoH, logoW);
    } else {
      RatioAtMostOne(logoW, logoH);
      ScaledAtMost(target, logoW, logoH);
    }
  }

  lemma RatioAboveOne(w: int, h: int)
    requires 0 < h && w as real / h as real > 1.0
    ensures h < w
  {
    assert w as real == (w as real / h as real) * h as real;
  }

  lemma RatioAtMostOne(w: int, h: int)
    requires 0 < h && w as real / h as real <= 1.0
    ensures w <= h
  {
    assert w as real == (w as real / h as real) * h as real;
  }

  /** Scaling by a ratio of at most one does not grow a value. */
  lemma ScaledAtMost(t: int, num: int, den: int)
    requires 0 <= t && 0 <= num <= den && 0 < den
    ensures Scaled(t, num, den) <= t as real
  {
    var x := t as real;
    assert x * num as real <= x * den as real;
    assert x * den as real / den as real == x;
  }

  /** On the 1024-pixel base with the default settings, a fetched square logo of any size is pasted
      as a 153-pixel square 30 pixels in from the bottom and right edges. */
  lemma AddLogoDefaultsOnBase(url: string, side: int, rgba: bool, fetch: string -> Option<Logo>)
    requires url != "" && side > 0 && fetch(url) == Some(Logo(side, side, rgba))
    ensures var brand := EmptyBrand.(logo := EmptyBrand.logo.(logoUrl := Some(url)));
      var base := Image(BaseSize, BaseSize, []);
      AddLogo(base, brand, fetch).ops == [PasteLogo(url, 841, 841, 153, 153, rgba)]
  {
    var brand := EmptyBrand.(logo := EmptyBrand.logo.(logoUrl := Some(url)));
    var base := Image(BaseSize, BaseSize, []);
    assert Trunc(base.width as real * brand.logo.maxSizePercent.GetOr(DefaultMaxSizePercent)) == 153 by {
      assert base.width as real * DefaultMaxSizePercent == 153.6;
    }
    assert Trunc(base.width as real * brand.logo.paddingPercent.GetOr(DefaultPaddingPercent)) == 30 by {
      assert base.width as real * DefaultPaddingPercent == 30.72;
    }
    assert RescaleLogo(153, side, side) == Some((153, 153)) by {
      ScaledSelf(153, side);
    }
    assert LogoPosition(BaseSize, BaseSize, 153, 153, DefaultPosition, 30) == Point(841, 841);
  }

  /* ------------------------------------------------------------ resize & crop */

  const DefaultTargetSize := 1080

  /** A crop rectangle, right and bottom exclusive. */
  datatype Box = Box(left: int, top: int, right: int, bottom: int)

  /** The centred crop of a `w` x `h` image to `tw` x `th`: exactly the target size, with the
      excess split as evenly as possible, any odd pixel going to the right or bottom. */
  function CropBox(w: int, h: int, tw: int, th: int): (b: Box)
    ensures b.right - b.left == tw && b.bottom - b.top == th
    ensures Centred(b.left, w - b.right) && Centred(b.top, h - b.bottom)
  {
    var left := (w - tw) / 2;
    var top := (h - th) / 2;
    Box(left, top, left + tw, top + th)
  }

  /** The size the image is scaled to before cropping: the side that is relatively shorter is
      fitted to the target and the other follows the image's ratio, rounded toward zero. `None`
      when a ratio divides by zero. */
  function CoverSize(w: int, h: int, tw: int, th: int): (r: Option<(int, int)>)
    ensures r.None? <==> h == 0 || th == 0 || (w == 0 && !(0.0 > tw as real / th as real))
    ensures r.Some? && w as real / h as real > tw as real / th as real ==> r.value.1 == th
    ensures r.Some? && w as real / h as real <= tw as real / th as real ==> r.value.0 == tw
  {
    if h == 0 || th == 0 then None
    else
      var imgRatio := w as real / h as real;
      if imgRatio > tw as real / th as real then Some((Trunc(th as real * imgRatio), th))
      else if imgRatio == 0.0 then None
      else Some((tw, Trunc(tw as real / imgRatio)))
  }

  /** Scales the image to cover the target size (`width` and `height` of the spec, 1080 each by
      default) and crops the centre. Fails where the code raises: a ratio dividing by zero, a
      resize to a side below one pixel, or a crop box whose right edge lies left of its left edge. */
  function ResizeToSpecs(image: Image, specWidth: Option<int>, specHeight: Option<int>): (r: Result<Image, string>)
    ensures var tw := specWidth.GetOr(DefaultTargetSize); var th := specHeight.GetOr(DefaultTargetSize);
      r.Success? ==>
        && r.value.width == tw && r.value.height == th
        && |r.value.ops| == |image.ops| + 2 && r.value.ops[..|image.ops|] == image.ops
        && var size := CoverSize(image.width, image.height, tw, th);
          && size.Some?
          && r.value.ops[|image.ops|] == Resize(size.value.0, size.value.1)
          && r.value.ops[|image.ops| + 1] == Crop(
               CropBox(size.value.0, size.value.1, tw, th).left, CropBox(size.value.0, size.value.1, tw, th).top,
               CropBox(size.value.0, size.value.1, tw, th).right, CropBox(size.value.0, size.value.1, tw, th).bottom)
  {
    var tw := specWidth.GetOr(DefaultTargetSize);
    var th := specHeight.GetOr(DefaultTargetSize);
    match CoverSize(image.width, image.height, tw, th)
    case None => Failure("division by zero")
    case Some((nw, nh)) =>
      if nw < 1 || nh < 1 then Failure("height and width must be > 0")
      else
        var b := CropBox(nw, nh, tw, th);
        if tw < 0 then Failure("Coordinate 'right' is less than 'left'")
        else if th < 0 then Failure("Coordinate 'lower' is less than 'upper'")
        else Success(Image(tw, th, image.ops + [Resize(nw, nh), Crop(b.left, b.top, b.right, b.bottom)]))
  }

  /** For a non-empty image and a positive target, resizing succeeds, the scaled image covers the
      target, and the crop box lies wholly inside it, so no padding is ever introduced. */
  lemma {:induction false} ResizeCovers(image: Image, tw: int, th: int)
    requires image.width > 0 && image.height > 0 && tw > 0 && th > 0
    ensures var size := CoverSize(image.width, image.height, tw, th);
      && size.Some? && size.value.0 >= tw && size.value.1 >= th
      && var b := CropBox(size.value.0, size.value.1, tw, th);
        0 <= b.left && b.right <= size.value.0 && 0 <= b.top && b.bottom <= size.value.1
    ensures ResizeToSpecs(image, Some(tw), Some(th)).Success?
  {
    var w := image.width as real;
    var h := image.height as real;
    var imgRatio := w / h;
    var targetRatio := tw as real / th as real;
    if imgRatio > targetRatio {
      CoverWide(w, h, tw as real, th as real);
      assert th as real * imgRatio > tw as real;
    } else {
      assert imgRatio > 0.0;
      CoverTall(w, h, tw as real, th as real);
      assert tw as real / imgRatio >= th as real;
    }
  }

  /** Fitting the height of a relatively wider image leaves a width at least the target's. */
  lemma CoverWide(w: real, h: real, tw: real, th: real)
    requires w > 0.0 && h > 0.0 && tw > 0.0 && th > 0.0 && w / h > tw / th
    ensures th * (w / h) > tw
  {
    assert th * (tw / th) == tw;
  }

  /** Fitting the width of a relatively taller image leaves a height at least the target's. */
  lemma CoverTall(w: real, h: real, tw: real, th: real)
    requires w > 0.0 && h > 0.0 && tw > 0.0 && th > 0.0 && w / h <= tw / th
    ensures tw / (w / h) >= th
  {
    assert tw / (w / h) == tw * h / w;
    assert w * th <= tw * h by {
      assert (w / h) * (h * th) <= (tw / th) * (h * th);
    }
  }

  /* ---------------------------------------------------------------- pipeline */

  /** The whole image pipeline, in the code's order: base image, the overlay when the text is
      non-empty, the logo, then the resize and crop to the spec. Encoding to PNG is not modelled. */
  function GenerateImage(
    prompt: string, brand: Brand, specWidth: Option<int>, specHeight: Option<int>,
    textOverlay: Option<string>, fetch: string -> Option<Logo>, measure: string -> (int, int)): (r: Result<Image, string>)
    ensures r.Success? ==> |r.value.ops| >= 3 && r.value.ops[0] == BaseImage(brand).ops[0]
    ensures r.Success? ==> r.value.width == specWidth.GetOr(DefaultTargetSize) && r.value.height == specHeight.GetOr(DefaultTargetSize)
  {
    var base := BaseImage(brand);
    var withText := if Truthy(textOverlay) then AddTextOverlay(base, textOverlay.value, brand, measure) else base;
    var withLogo := AddLogo(withText, brand, fetch);
    ResizeToSpecs(withLogo, specWidth, specHeight)
  }

  /** For any positive target size the pipeline succeeds, and its steps come in the code's order:
      the fill, then the shadow and text exactly when there is text, then at most one logo paste,
      then the resize and the crop. */
  lemma GenerateImageOrder(
    prompt: string, brand: Brand, tw: int, th: int,
    textOverlay: Option<string>, fetch: string -> Option<Logo>, measure: string -> (int, int))
    requires tw > 0 && th > 0
    ensures var r := GenerateImage(prompt, brand, Some(tw), Some(th), textOverlay, fetch, measure);
      && r.Success?
      && var ops := r.value.ops; var n := |ops|; var t := if Truthy(textOverlay) then 2 else 0;
        && (n == 3 + t || n == 4 + t)
        && ops[0].Fill?
        && (forall k :: 1 <= k <= t ==> ops[k].DrawText?)
        && (n == 4 + t ==> ops[1 + t].PasteLogo? && Truthy(brand.logo.logoUrl))
        && ops[n - 2].Resize? && ops[n - 1].Crop?
  {
    var base := BaseImage(brand);
    var withText := if Truthy(textOverlay) then AddTextOverlay(base, textOverlay.value, brand, measure) else base;
    var withLogo := AddLogo(withText, brand, fetch);
    ResizeCovers(withLogo, tw, th);
    var r := ResizeToSpecs(withLogo, Some(tw), Some(th));
    assert r.value.ops[..|withLogo.ops|] == withLogo.ops;
    assert withLogo.ops[..|withText.ops|] == withText.ops;
    assert withText.ops[..1] == base.ops;
  }
}
