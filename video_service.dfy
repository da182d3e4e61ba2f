/**
 The ffmpeg argument builder of the progressive video service: the video
 arguments, the audio arguments and the assembled command line.
 */
module VideoService {
  import opened Text
  import opened StreamModel

  /** Forces the first keyframe at 0.1 s and then one every 5 s after the
      previous forced keyframe, so that seeks land near a keyframe. */
  const KeyFrameArg := " -force_key_frames expr:if(isnan(prev_forced_t),gte(t,.1),gte(t,prev_forced_t+5))"

  /** The bitstream filter that converts H.264 to Annex-B framing. */
  const AnnexBFilterArg := " -bsf h264_mp4toannexb"

  /** Fragmented MP4 with an empty moov atom, for progressive output. */
  const Mp4FormatArg := " -f mp4 -movflags frag_keyframe+empty_moov"

  const AudioCopyArg := "-acodec copy"

  /** The codec token that asks ffmpeg to pass the stream through, in any
      casing. */
  function IsCopy(codec: string): (r: bool)
    ensures r <==> Lowered(codec) == "copy"
  {
    assert Lowered("copy") == "copy";
    EqualsIgnoreCase(codec, "copy")
  }

  /** The VP8 encoder, in any casing, which gets its own thread count. */
  function IsVpx(codec: string): (r: bool)
    ensures r <==> Lowered(codec) == "libvpx"
  {
    assert Lowered("libvpx") == "libvpx";
    EqualsIgnoreCase(codec, "libvpx")
  }

  /** The request bounds the output size in some way: false exactly when it
      leaves width, height, maximum width and maximum height all unset. */
  function HasSizeBound(request: StreamRequest): (r: bool)
    ensures !r <==> request.width.None? && request.height.None? && request.maxWidth.None?
                    && request.maxHeight.None?
  {
    request.width.Some? || request.height.Some? || request.maxHeight.Some? || request.maxWidth.Some?
  }

  /** A subtitle stream that is embedded in the source and is a bitmap format
      (PGS or DVD): it can only be shown by burning it into the picture. */
  function HasGraphicalSubs(state: StreamState): (r: bool)
    ensures r <==> state.subtitleStream.Some? && !state.subtitleStream.value.isExternal
                   && (OccursIgnoreCase(state.subtitleStream.value.codec, "pgs")
                       || OccursIgnoreCase(state.subtitleStream.value.codec, "dvd"))
  {
    state.subtitleStream.Some? && !state.subtitleStream.value.isExternal
    && (IndexOfIgnoreCase(state.subtitleStream.value.codec, "pgs") != -1
        || IndexOfIgnoreCase(state.subtitleStream.value.codec, "dvd") != -1)
  }

  /** `GetVideoArguments`: the video half of the ffmpeg arguments for the
      output codec `codec`. */
  function VideoArguments(state: StreamState, codec: string, performSubtitleConversion: bool, base: BaseService): (r: string)
    // pass-through: the codec flag and, for an H.264 source, the bitstream filter; nothing else
    ensures IsCopy(codec) && state.videoStream.Some? && base.isH264(state.videoStream.value) ==>
                  r == "-vcodec " + codec + AnnexBFilterArg
    ensures IsCopy(codec) && !(state.videoStream.Some? && base.isH264(state.videoStream.value)) ==>
                  r == "-vcodec " + codec
    // re-encode with a bitmap subtitle: ends with the burn-in parameter
    ensures !IsCopy(codec) && HasGraphicalSubs(state) ==>
              EndsWith(r, base.getInternalGraphicalSubtitleParam(state, codec))
  {
    var args := "-vcodec " + codec;
    if IsCopy(codec) then
      if state.videoStream.Some? && base.isH264(state.videoStream.value) then args + AnnexBFilterArg else args
    else
      var args := args + KeyFrameArg;
      var hasGraphicalSubs := HasGraphicalSubs(state);
      var request := state.request;
      var args :=
        if !hasGraphicalSubs && HasSizeBound(request)
        then args + base.getOutputSizeParam(state, codec, performSubtitleConversion)
        else args;
      var qualityParam := base.getVideoQualityParam(state, codec, false);
      var args := if qualityParam != "" then args + " " + Trim(qualityParam) else args;
      if hasGraphicalSubs then args + base.getInternalGraphicalSubtitleParam(state, codec) else args
  }

  /** `GetAudioArguments`: the audio half of the ffmpeg arguments. */
  function AudioArguments(state: StreamState, base: BaseService): (r: string)
    // no audio stream, no audio arguments; otherwise at least the codec flag
    ensures r == "" <==> state.audioStream.None?
    // pass-through is the fixed flag, whatever the casing of the codec token
    ensures state.audioStream.Some? && IsCopy(base.getAudioCodec(state.request)) ==> r == AudioCopyArg
  {
    if state.audioStream.None? then ""
    else
      var request := state.request;
      var codec := base.getAudioCodec(request);
      if IsCopy(codec) then AudioCopyArg
      else
        var args := "-acodec " + codec;
        var channels := base.getNumAudioChannelsParam(request, state.audioStream.value);
        var args := if channels.Some? then args + " -ac " + Decimal(channels.value) else args;
        var bitrate := base.getAudioBitrateParam(state);
        var args := if bitrate.Some? then args + " -ab " + Decimal(bitrate.value) else args;
        args + " " + base.getAudioFilterParam(state, true)
  }

  /** The container flags: fragmented MP4 exactly when the output path ends in
      ".mp4" (in any casing), and nothing otherwise. */
  function FormatFlags(outputPath: string): (r: string)
    ensures r == Mp4FormatArg <==> EndsWithIgnoreCase(outputPath, ".mp4")
    ensures r == "" <==> !EndsWithIgnoreCase(outputPath, ".mp4")
  {
    ExtensionEqualsIffSuffix(outputPath, ".mp4");
    if EqualsIgnoreCase(GetExtension(outputPath), ".mp4") then Mp4FormatArg else ""
  }

  /** The fixed command template
      `{0} -i {1}{2}{3} {4} {5} -map_metadata -1 -threads {6} {7}{8} "{9}"`
      from its second word on (after the input modifier and a blank). */
  function CommandWords(inputArgument: string, slowSeek: string, keyFrame: string, mapArgs: string,
                        videoArgs: string, threads: int, audioArgs: string, format: string,
                        outputPath: string): (w: string)
    ensures |w| >= 3 && w[0] == '-' && w[|w| - 1] == '"'
    ensures |Quoted(outputPath)| + 3 <= |w| && EndsWith(w, Quoted(outputPath))
  {
    "-i " + inputArgument + slowSeek + keyFrame + " " + mapArgs + " " + videoArgs
    + " -map_metadata -1 -threads " + Decimal(threads) + " " + audioArgs + format + Quoted(outputPath)
  }

  /** The output path in double quotes, after a blank. */
  function Quoted(outputPath: string): string
  {
    " \"" + outputPath + "\""
  }

  /** What trimming does to the command: only white space at the front of the
      input modifier, and the blank after a modifier that is all white space,
      is removed. */
  lemma TrimAfterModifier(inputModifier: string, rest: string)
    requires |rest| >= 2 && rest[0] == ' ' && !IsWhiteSpace(rest[1]) && !IsWhiteSpace(rest[|rest| - 1])
    ensures Trim(inputModifier + rest) == LeadingModifier(inputModifier) + rest[1..]
  {
    if TrimStart(inputModifier) == [] {
      TrimStartAfterBlankPrefix(inputModifier, rest);
    } else {
      TrimStartAfterSolidPrefix(inputModifier, rest);
    }
    assert (inputModifier + rest)[|inputModifier + rest| - 1] == rest[|rest| - 1];
    TrimOfSolidEnd(inputModifier + rest);
  }

  /** What is left of the input modifier after trimming the command: its
      trimmed text and a blank, or nothing when it is all white space. */
  function LeadingModifier(inputModifier: string): string
  {
    if TrimStart(inputModifier) == "" then "" else TrimStart(inputModifier) + " "
  }

  /** The template filled in and trimmed, for a word list that starts and
      ends with a character other than white space. */
  function TrimmedTemplate(inputModifier: string, words: string): (r: string)
    requires |words| >= 1 && !IsWhiteSpace(words[0]) && !IsWhiteSpace(words[|words| - 1])
    ensures r == LeadingModifier(inputModifier) + words
  {
    assert (" " + words)[1..] == words;
    TrimAfterModifier(inputModifier, " " + words);
    Trim(inputModifier + (" " + words))
  }

  /** `string.Format(template, ...).Trim()`: the filled-in template loses only
      the white space in front of the input modifier (and the blank after an
      all-white-space modifier); it keeps the quoted output path at its end. */
  function FormatCommand(inputModifier: string, inputArgument: string, slowSeek: string, keyFrame: string,
                         mapArgs: string, videoArgs: string, threads: int, audioArgs: string,
                         format: string, outputPath: string): (r: string)
    ensures NoEdgeWhiteSpace(r)
    ensures r == LeadingModifier(inputModifier)
                 + CommandWords(inputArgument, slowSeek, keyFrame, mapArgs, videoArgs, threads, audioArgs,
                                format, outputPath)
    ensures |Quoted(outputPath)| < |r| && EndsWith(r, Quoted(outputPath))
  {
    var words := CommandWords(inputArgument, slowSeek, keyFrame, mapArgs, videoArgs, threads, audioArgs,
                              format, outputPath);
    EndsWithAppend(LeadingModifier(inputModifier), words, Quoted(outputPath));
    TrimmedTemplate(inputModifier, words)
  }

  /** `GetCommandLineArguments`: the whole ffmpeg argument string, trimmed; it
      always ends with the quoted output path. */
  function CommandLineArguments(outputPath: string, state: StreamState, performSubtitleConversions: bool,
                                base: BaseService): (r: string)
    ensures NoEdgeWhiteSpace(r)
    ensures |Quoted(outputPath)| < |r| && EndsWith(r, Quoted(outputPath))
  {
    var videoCodec := base.getVideoCodec(state.request);
    var format := FormatFlags(outputPath);
    var keyFrame := "";
    var threads := base.getNumberOfThreads(state, IsVpx(videoCodec));
    var inputModifier := base.getInputModifier(state);
    FormatCommand(
      inputModifier,
      base.getInputArgument(state),
      base.getSlowSeekCommandLineParameter(state.request),
      keyFrame,
      base.getMapArgs(state),
      VideoArguments(state, videoCodec, performSubtitleConversions, base),
      threads,
      AudioArguments(state, base),
      format,
      outputPath)
  }

  /** The assembled command, piece by piece: the trimmed input modifier, then
      the template words filled with the input, the slow-seek parameter, an
      always empty keyframe placeholder, the stream mapping, the video
      arguments for the requested codec, the thread count asked for with "is
      this VP8", the audio arguments, the container flags and the output path. */
  lemma CommandLineLayout(outputPath: string, state: StreamState, performSubtitleConversions: bool,
                          base: BaseService)
    ensures var videoCodec := base.getVideoCodec(state.request);
            CommandLineArguments(outputPath, state, performSubtitleConversions, base)
            == LeadingModifier(base.getInputModifier(state))
               + CommandWords(base.getInputArgument(state), base.getSlowSeekCommandLineParameter(state.request),
                              "", base.getMapArgs(state),
                              VideoArguments(state, videoCodec, performSubtitleConversions, base),
                              base.getNumberOfThreads(state, IsVpx(videoCodec)),
                              AudioArguments(state, base), FormatFlags(outputPath), outputPath)
  {
  }
}
