/** The branded-video pipeline as transformations of a clip record: keyframes, animation,
    one audio track, and the logo watermark. Rendering is a placeholder in the code and is
    not modelled; frames are their size and background colour. */
module VideoGenerator {
  import opened Wrappers
  import opened BrandDict
  import opened BrandModels

  /** A placeholder keyframe: its size and the colour it is filled with. */
  datatype Frame = Frame(width: int, height: int, background: string)

  /** The audio track: a voice-over of some text in the brand's tone, or music in the brand's mood. */
  datatype Audio =
    | Voiceover(text: string, tone: string)
    | Music(mood: string)

  /** How the logo is laid over every frame. */
  datatype Watermark = Watermark(
    logoUrl: string,
    position: string,
    opacity: real,
    sizePercent: real,
    paddingPercent: real,
    fadeIn: bool,
    fadeInDuration: real)

  /** The clip dictionary. `watermark` and `hasLogo` are absent until the watermark step sets them. */
  datatype Clip = Clip(
    frames: seq<Frame>,
    duration: int,
    fps: int,
    audio: Option<Audio>,
    watermark: Option<Watermark>,
    hasLogo: Option<bool>)

  const KeyframeWidth := 1920
  const KeyframeHeight := 1080
  const DefaultKeyframes := 3
  const DefaultPrimary := "#1A365D"
  const Fps := 30
  const DefaultTone := "profesional"
  const DefaultDuration := 15

  const WatermarkOpacity: real := 0.85
  const DefaultWatermarkSize: real := 0.12
  const DefaultWatermarkPadding: real := 0.03
  const DefaultWatermarkPosition := "bottom-right"
  const FadeInDuration: real := 0.5

  /** `range(n)` has `n` elements when `n` is positive and none otherwise. */
  function RangeLength(n: int): nat {
    if n > 0 then n else 0
  }

  /** The keyframes: `count` full-HD frames (none for a count below one), each filled with the
      brand's primary colour, dark blue when the brand has none. */
  method GenerateKeyframes(brand: Brand, count: int) returns (frames: seq<Frame>)
    ensures |frames| == RangeLength(count)
    ensures forall k :: 0 <= k < |frames| ==>
      frames[k] == Frame(KeyframeWidth, KeyframeHeight, brand.colours.primary.GetOr(DefaultPrimary))
  {
    var background := brand.colours.primary.GetOr(DefaultPrimary);
    frames := [];
    var i := 0;
    while i < count
      invariant 0 <= i <= RangeLength(count)
      invariant |frames| == i
      invariant forall k :: 0 <= k < |frames| ==> frames[k] == Frame(KeyframeWidth, KeyframeHeight, background)
    {
      frames := frames + [Frame(KeyframeWidth, KeyframeHeight, background)];
      i := i + 1;
    }
  }

  /** The animated clip: the keyframes, the requested duration, 30 fps, and no audio, watermark or logo flag yet. */
  function Animate(frames: seq<Frame>, duration: int): (c: Clip)
    ensures c.frames == frames && c.duration == duration && c.fps == Fps
    ensures c.audio.None? && c.watermark.None? && c.hasLogo.None?
  {
    Clip(frames, duration, Fps, None, None, None)
  }

  /** The brand's emotion, `profesional` when it has none: the voice-over tone and the music mood. */
  function BrandTone(brand: Brand): (tone: string)
    ensures brand.emotion.Some? ==> tone == brand.emotion.value
    ensures brand.emotion.None? ==> tone == DefaultTone
  {
    brand.emotion.GetOr(DefaultTone)
  }

  /** Sets the audio to a voice-over of `text` in the brand's tone; nothing else changes. */
  function AddVoiceover(clip: Clip, text: string, brand: Brand): (c: Clip)
    ensures c.audio == Some(Voiceover(text, BrandTone(brand)))
    ensures c.(audio := clip.audio) == clip
  {
    clip.(audio := Some(Voiceover(text, BrandTone(brand))))
  }

  /** Sets the audio to music in the brand's mood; nothing else changes. */
  function AddBackgroundMusic(clip: Clip, brand: Brand): (c: Clip)
    ensures c.audio == Some(Music(BrandTone(brand)))
    ensures c.(audio := clip.audio) == clip
  {
    clip.(audio := Some(Music(BrandTone(brand))))
  }

  /** The watermark configuration of a brand with a logo URL: that URL, the brand's position, size and
      padding (bottom-right, 12% and 3% by default), 85% opacity and a half-second fade-in. */
  function BrandWatermark(brand: Brand): (w: Watermark)
    requires Truthy(brand.logo.logoUrl)
    ensures w.logoUrl == brand.logo.logoUrl.value
    ensures w.position == brand.logo.preferredPosition.GetOr(DefaultWatermarkPosition)
    ensures w.sizePercent == brand.logo.maxSizePercent.GetOr(DefaultWatermarkSize)
    ensures w.paddingPercent == brand.logo.paddingPercent.GetOr(DefaultWatermarkPadding)
    ensures w.opacity == WatermarkOpacity && w.fadeIn && w.fadeInDuration == FadeInDuration
  {
    Watermark(
      brand.logo.logoUrl.value,
      brand.logo.preferredPosition.GetOr(DefaultWatermarkPosition),
      WatermarkOpacity,
      brand.logo.maxSizePercent.GetOr(DefaultWatermarkSize),
      brand.logo.paddingPercent.GetOr(DefaultWatermarkPadding),
      true,
      FadeInDuration)
  }

  /** The watermark step. Without a logo URL (absent or empty) the clip is returned as it is.
      Otherwise the clip gains the logo flag and a watermark with that URL, the brand's position,
      size and padding (bottom-right, 12% and 3% by default), 85% opacity and a half-second fade-in;
      frames, duration, fps and audio are kept. */
  function AddLogoWatermark(clip: Clip, brand: Brand): (c: Clip)
    ensures !Truthy(brand.logo.logoUrl) ==> c == clip
    ensures Truthy(brand.logo.logoUrl) ==>
      && c.hasLogo == Some(true)
      && c.watermark == Some(BrandWatermark(brand))
      && c.watermark.value.logoUrl == brand.logo.logoUrl.value
      && c.watermark.value.position == brand.logo.preferredPosition.GetOr(DefaultWatermarkPosition)
      && c.watermark.value.sizePercent == brand.logo.maxSizePercent.GetOr(DefaultWatermarkSize)
      && c.watermark.value.paddingPercent == brand.logo.paddingPercent.GetOr(DefaultWatermarkPadding)
      && c.watermark.value.opacity == WatermarkOpacity
      && c.watermark.value.fadeIn && c.watermark.value.fadeInDuration == FadeInDuration
    ensures c.frames == clip.frames && c.duration == clip.duration && c.fps == clip.fps && c.audio == clip.audio
  {
    if !Truthy(brand.logo.logoUrl) then clip
    else clip.(watermark := Some(BrandWatermark(brand)), hasLogo := Some(true))
  }

  /** Watermarking twice is watermarking once. */
  lemma WatermarkIdempotent(clip: Clip, brand: Brand)
    ensures AddLogoWatermark(AddLogoWatermark(clip, brand), brand) == AddLogoWatermark(clip, brand)
  {
  }

  /** A brand record's logo is always set, so its clips carry the record's own logo settings;
      with the record's default logo the watermark spans 15%, not the step's own 12% default. */
  lemma WatermarkFromBrandRecord(clip: Clip, dna: BrandDNA)
    requires dna.logo.logoUrl != ""
    ensures var c := AddLogoWatermark(clip, FromBrandDNA(dna));
      && c.hasLogo == Some(true)
      && c.watermark.value.sizePercent == dna.logo.maxSizePercent
      && c.watermark.value.position == dna.logo.preferredPosition
    ensures var r := MakeLogoAsset(Some(dna.logo.logoUrl), None, None, None, None, None, None);
      r.Success? && r.value == dna.logo ==>
        AddLogoWatermark(clip, FromBrandDNA(dna)).watermark.value.sizePercent == 0.15
  {
  }

  /** The output a clip is rendered to: the platform's size and file format. */
  datatype OutputSpec = OutputSpec(width: int, height: int, format: string)

  /** The video pipeline up to rendering: keyframes, animation, a voice-over when one is asked for
      with non-empty text and music otherwise, then the watermark; the finished clip is handed to the
      renderer together with the platform's output spec. The duration defaults to 15 seconds and the
      voice-over to none. The prompt is not used by the placeholder keyframes, and the renderer's own
      output is a placeholder that is not modelled. */
  method GenerateVideo(
    prompt: string, brand: Brand, platformSpecs: OutputSpec, duration: int := DefaultDuration,
    includeVoiceover: bool := false, voiceoverText: Option<string> := None) returns (clip: Clip, specs: OutputSpec)
    ensures |clip.frames| == DefaultKeyframes
    ensures forall k :: 0 <= k < |clip.frames| ==>
      clip.frames[k] == Frame(KeyframeWidth, KeyframeHeight, brand.colours.primary.GetOr(DefaultPrimary))
    ensures clip.duration == duration && clip.fps == Fps
    ensures clip.audio.Some?
    ensures clip.audio.value.Voiceover? <==> includeVoiceover && Truthy(voiceoverText)
    ensures clip.audio.value.Voiceover? ==> clip.audio.value == Voiceover(voiceoverText.value, BrandTone(brand))
    ensures clip.audio.value.Music? ==> clip.audio.value == Music(BrandTone(brand))
    ensures clip.hasLogo == Some(true) <==> Truthy(brand.logo.logoUrl)
    ensures Truthy(brand.logo.logoUrl) ==> clip.watermark == Some(BrandWatermark(brand))
    ensures !Truthy(brand.logo.logoUrl) ==> clip.watermark.None? && clip.hasLogo.None?
    ensures specs == platformSpecs
  {
    var frames := GenerateKeyframes(brand, DefaultKeyframes);
    clip := Animate(frames, duration);
    if includeVoiceover && Truthy(voiceoverText) {
      clip := AddVoiceover(clip, voiceoverText.value, brand);
    } else {
      clip := AddBackgroundMusic(clip, brand);
    }
    clip := AddLogoWatermark(clip, brand);
    specs := platformSpecs;
  }

  /** The fixed target of an animated still: a 1080 x 1920 mp4 lasting five seconds. */
  const AnimatedSpec := OutputSpec(1080, 1920, "mp4")
  const AnimatedDuration := 5

  /** Animating a still runs the video pipeline with a fixed prompt, the fixed 1080 x 1920 mp4 spec,
      five seconds and no voice-over, so it gets background music and the watermark like any other
      video. The still itself is not used. */
  method GenerateAnimatedImage(brand: Brand) returns (clip: Clip, specs: OutputSpec)
    ensures specs == OutputSpec(1080, 1920, "mp4")
    ensures clip.duration == AnimatedDuration
    ensures clip.audio == Some(Music(BrandTone(brand)))
    ensures clip.hasLogo == Some(true) <==> Truthy(brand.logo.logoUrl)
    ensures Truthy(brand.logo.logoUrl) ==> clip.watermark == Some(BrandWatermark(brand))
  {
    clip, specs := GenerateVideo("Animate this image", brand, AnimatedSpec, AnimatedDuration);
  }
}
