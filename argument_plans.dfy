/**
 The argument builder as a decision table. A plan records which branch was
 taken and which optional parts are present, whatever text a helper returns
 (even the empty string), so it states the branch structure that the strings
 alone cannot. `RenderVideo` and `RenderAudio` fix the order of the parts, and
 the lemmas below prove that the string builders render exactly the plans.
 */
module ArgumentPlans {
  import opened Text
  import opened StreamModel
  import opened VideoService

  // ---------------------------------------------------------------- video

  datatype VideoPlan =
    | PassThrough(codec: string, annexB: bool)
    | Reencode(codec: string, size: Option<string>, quality: Option<string>, subtitle: Option<string>)

  /** `s` followed by the optional part, if present. */
  function AppendOption(s: string, part: Option<string>): string
  {
    if part.Some? then s + part.value else s
  }

  /** The parts in their order: codec, then either the bitstream filter, or
      the keyframes, size, quality and burned-in subtitle. */
  function RenderVideo(plan: VideoPlan): string
  {
    match plan
    case PassThrough(codec, annexB) =>
      if annexB then "-vcodec " + codec + AnnexBFilterArg else "-vcodec " + codec
    case Reencode(codec, size, quality, subtitle) =>
      var s := AppendOption("-vcodec " + codec + KeyFrameArg, size);
      var s := if quality.Some? then s + " " + Trim(quality.value) else s;
      AppendOption(s, subtitle)
  }

  /** The video decision: pass-through or re-encode is chosen once, by the
      codec token; a re-encode then either burns in a bitmap subtitle or
      scales to the requested size, never both. */
  function PlanVideo(state: StreamState, codec: string, performSubtitleConversion: bool, base: BaseService)
    : (plan: VideoPlan)
    ensures plan.codec == codec
    ensures plan.PassThrough? <==> IsCopy(codec)
    ensures plan.PassThrough? ==>
              (plan.annexB <==> state.videoStream.Some? && base.isH264(state.videoStream.value))
    ensures plan.Reencode? ==>
              (plan.size.Some? <==> !HasGraphicalSubs(state) && HasSizeBound(state.request))
    ensures plan.Reencode? ==> (plan.subtitle.Some? <==> HasGraphicalSubs(state))
    ensures plan.Reencode? ==> !(plan.size.Some? && plan.subtitle.Some?)
    ensures plan.Reencode? ==> (plan.quality.Some? <==> base.getVideoQualityParam(state, codec, false) != "")
    ensures plan.Reencode? && plan.size.Some? ==>
              plan.size.value == base.getOutputSizeParam(state, codec, performSubtitleConversion)
    ensures plan.Reencode? && plan.quality.Some? ==>
              plan.quality.value == base.getVideoQualityParam(state, codec, false)
    ensures plan.Reencode? && plan.subtitle.Some? ==>
              plan.subtitle.value == base.getInternalGraphicalSubtitleParam(state, codec)
  {
    if IsCopy(codec) then
      PassThrough(codec, state.videoStream.Some? && base.isH264(state.videoStream.value))
    else
      var quality := base.getVideoQualityParam(state, codec, false);
      Reencode(
        codec,
        if !HasGraphicalSubs(state) && HasSizeBound(state.request)
        then Some(base.getOutputSizeParam(state, codec, performSubtitleConversion))
        else None,
        if quality != "" then Some(quality) else None,
        if HasGraphicalSubs(state) then Some(base.getInternalGraphicalSubtitleParam(state, codec)) else None)
  }

  /** The video arguments are exactly the rendering of the video plan. */
  lemma VideoArgumentsFollowPlan(state: StreamState, codec: string, performSubtitleConversion: bool,
                                 base: BaseService)
    ensures VideoArguments(state, codec, performSubtitleConversion, base)
            == RenderVideo(PlanVideo(state, codec, performSubtitleConversion, base))
  {
  }

  /** A rendered re-encode plan starts with the codec flag and the keyframes. */
  lemma ReencodeRenderPrefix(plan: VideoPlan)
    requires plan.Reencode?
    ensures "-vcodec " + plan.codec + KeyFrameArg <= RenderVideo(plan)
  {
    var head := "-vcodec " + plan.codec + KeyFrameArg;
    var s1 := AppendOption(head, plan.size);
    var s2 := if plan.quality.Some? then s1 + " " + Trim(plan.quality.value) else s1;
    PrefixOfAppendOption(head, head, plan.size);
    if plan.quality.Some? {
      assert s2 == s1 + (" " + Trim(plan.quality.value));
      PrefixOfAppendOption(head, s1, Some(" " + Trim(plan.quality.value)));
    }
    PrefixOfAppendOption(head, s2, plan.subtitle);
  }

  lemma PrefixOfAppendOption(p: string, s: string, part: Option<string>)
    requires p <= s
    ensures p <= AppendOption(s, part)
  {
    if part.Some? {
      assert (s + part.value)[..|s|] == s;
    }
  }

  /** A re-encode always starts with the codec flag and the forced keyframes,
      whatever the subtitle and request state. */
  lemma VideoReencodePrefix(state: StreamState, codec: string, performSubtitleConversion: bool,
                            base: BaseService)
    requires !IsCopy(codec)
    ensures "-vcodec " + codec + KeyFrameArg <= VideoArguments(state, codec, performSubtitleConversion, base)
  {
    VideoArgumentsFollowPlan(state, codec, performSubtitleConversion, base);
    ReencodeRenderPrefix(PlanVideo(state, codec, performSubtitleConversion, base));
  }

  /** The size helper is consulted only for a request with a size bound and
      without a bitmap subtitle: otherwise any size helper gives the same
      video arguments, and so does either subtitle-conversion flag. */
  lemma SizeHelperOnlyWithBound(state: StreamState, codec: string, performSubtitleConversion: bool,
                                base: BaseService, sizeParam: (StreamState, string, bool) -> string)
    requires HasGraphicalSubs(state) || !HasSizeBound(state.request)
    ensures VideoArguments(state, codec, performSubtitleConversion, base)
            == VideoArguments(state, codec, performSubtitleConversion, base.(getOutputSizeParam := sizeParam))
    ensures VideoArguments(state, codec, performSubtitleConversion, base)
            == VideoArguments(state, codec, !performSubtitleConversion, base)
  {
    VideoArgumentsFollowPlan(state, codec, performSubtitleConversion, base);
    VideoArgumentsFollowPlan(state, codec, !performSubtitleConversion, base);
    VideoArgumentsFollowPlan(state, codec, performSubtitleConversion, base.(getOutputSizeParam := sizeParam));
  }

  // ---------------------------------------------------------------- audio

  datatype AudioPlan =
    | NoAudio
    | AudioCopy
    | AudioEncode(codec: string, channels: Option<int>, bitrate: Option<int>, filter: string)

  /** The codec flag with the optional channel count and bitrate. */
  function AudioEncoding(codec: string, channels: Option<int>, bitrate: Option<int>): string
  {
    var s := "-acodec " + codec;
    var s := if channels.Some? then s + " -ac " + Decimal(channels.value) else s;
    if bitrate.Some? then s + " -ab " + Decimal(bitrate.value) else s
  }

  function RenderAudio(plan: AudioPlan): string
  {
    match plan
    case NoAudio => ""
    case AudioCopy => AudioCopyArg
    case AudioEncode(codec, channels, bitrate, filter) =>
      AudioEncoding(codec, channels, bitrate) + " " + filter
  }

  /** The audio decision: nothing without an audio stream, the fixed copy flag
      for pass-through, and otherwise the codec with the optional channel count
      and bitrate and the audio filter. */
  function PlanAudio(state: StreamState, base: BaseService): (plan: AudioPlan)
    ensures plan.NoAudio? <==> state.audioStream.None?
    ensures plan.AudioCopy? <==> state.audioStream.Some? && IsCopy(base.getAudioCodec(state.request))
    ensures plan.AudioEncode? ==>
              && plan.codec == base.getAudioCodec(state.request)
              && plan.channels == base.getNumAudioChannelsParam(state.request, state.audioStream.value)
              && plan.bitrate == base.getAudioBitrateParam(state)
              && plan.filter == base.getAudioFilterParam(state, true)
  {
    if state.audioStream.None? then NoAudio
    else
      var codec := base.getAudioCodec(state.request);
      if IsCopy(codec) then AudioCopy
      else
        AudioEncode(
          codec,
          base.getNumAudioChannelsParam(state.request, state.audioStream.value),
          base.getAudioBitrateParam(state),
          base.getAudioFilterParam(state, true))
  }

  /** The audio arguments are exactly the rendering of the audio plan. */
  lemma AudioArgumentsFollowPlan(state: StreamState, base: BaseService)
    ensures AudioArguments(state, base) == RenderAudio(PlanAudio(state, base))
  {
  }

  /** The encoding part starts with the codec flag. */
  lemma AudioEncodingPrefix(codec: string, channels: Option<int>, bitrate: Option<int>)
    ensures "-acodec " + codec <= AudioEncoding(codec, channels, bitrate)
  {
    var head := "-acodec " + codec;
    var s1 := if channels.Some? then head + " -ac " + Decimal(channels.value) else head;
    if channels.Some? {
      PrefixOfAppend(head, head, " -ac ");
      PrefixOfAppend(head, head + " -ac ", Decimal(channels.value));
    }
    if bitrate.Some? {
      PrefixOfAppend(head, s1, " -ab ");
      PrefixOfAppend(head, s1 + " -ab ", Decimal(bitrate.value));
    }
  }

  /** A rendered audio re-encode starts with the codec flag and ends with the
      filter parameter. */
  lemma AudioRenderShape(plan: AudioPlan)
    requires plan.AudioEncode?
    ensures "-acodec " + plan.codec <= RenderAudio(plan)
    ensures EndsWith(RenderAudio(plan), " " + plan.filter)
  {
    var s := AudioEncoding(plan.codec, plan.channels, plan.bitrate);
    AudioEncodingPrefix(plan.codec, plan.channels, plan.bitrate);
    PrefixOfAppend("-acodec " + plan.codec, s, " ");
    PrefixOfAppend("-acodec " + plan.codec, s + " ", plan.filter);
    assert s + " " + plan.filter == s + (" " + plan.filter);
    EndsWithAppend(s, " " + plan.filter, " " + plan.filter);
  }

  /** A re-encode of the audio starts with the codec flag and always ends with
      the audio filter parameter. */
  lemma AudioEncodeShape(state: StreamState, base: BaseService)
    requires state.audioStream.Some? && !IsCopy(base.getAudioCodec(state.request))
    ensures "-acodec " + base.getAudioCodec(state.request) <= AudioArguments(state, base)
    ensures EndsWith(AudioArguments(state, base), " " + base.getAudioFilterParam(state, true))
  {
    AudioArgumentsFollowPlan(state, base);
    AudioRenderShape(PlanAudio(state, base));
  }
}
