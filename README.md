# ffmpeg argument builder of the progressive video service

This project models how MediaBrowser's progressive video service
(`VideoService`) builds the ffmpeg command line for a transcoding job. The
builder reads a `StreamState`: the request, the probed video, audio and
subtitle streams, and the helpers of the streaming base class. It produces
three strings:

- the video arguments: pass through the stream (`-vcodec copy`, plus the
  Annex-B bitstream filter for an H.264 source), or re-encode it with forced
  keyframes, then either an output size or a burned-in bitmap subtitle (never
  both), and an optional quality parameter;
- the audio arguments: nothing when there is no audio stream, `-acodec copy`
  for pass-through, or otherwise the codec, the channel count, the bitrate and
  the audio filter;
- the whole command. This is the fixed template
  `{0} -i {1}{2}{3} {4} {5} -map_metadata -1 -threads {6} {7}{8} "{9}"`,
  filled in and trimmed. It adds the fragmented-MP4 flags when the output
  file's extension is `.mp4` in any casing.

The model has four modules:

- `Text` holds the .NET string operations the builder relies on:
  - ordinal case-insensitive comparison and `IndexOf`;
  - `Trim` over the `Char.IsWhiteSpace` set;
  - `Path.GetExtension`;
  - decimal rendering of integers.
- `StreamModel` holds the stream state. It also holds the base-class helpers,
  as a record of functions supplied by the caller.
- `VideoService` holds the three builders, written in the shape of the
  source.
- `ArgumentPlans` describes the same builders as decision tables. A plan
  records which branch was taken and which optional parts are present. The
  link lemmas prove that the builders render exactly those plans.

## Model

| member | source | states |
|---|---|---|
| Text.IndexOfIgnoreCase | MediaBrowser.Api/Playback/Progressive/VideoService.cs:145-146 | -1 exactly when the pattern occurs nowhere, ignoring ASCII case; otherwise the first index where it occurs |
| Text.Trim | MediaBrowser.Api/Playback/Progressive/VideoService.cs:163 | the result is a contiguous part of the input; only white space is removed around it; it neither starts nor ends with white space |
| Text.GetExtension | MediaBrowser.Api/Playback/Progressive/VideoService.cs:100 | empty exactly when the path has no dot; otherwise a suffix of the path that starts at its last dot |
| Text.ExtensionEqualsIffSuffix | MediaBrowser.Api/Playback/Progressive/VideoService.cs:100 | for an extension with a single leading dot, the path's extension equals it ignoring case exactly when the path ends with it ignoring case |
| Text.EqualsIgnoreCase | MediaBrowser.Api/Playback/Progressive/VideoService.cs:100 | (also at lines 105, 135 and 193) the two strings are equal exactly when they are equal after case-folding every character |
| Text.Decimal | MediaBrowser.Api/Playback/Progressive/VideoService.cs:205-212 | (also the thread count at line 116) a leading '-' exactly for negative numbers, followed by decimal digits in canonical form: no leading zero, and "0" is the only rendering of zero |
| Text.DecimalRoundTrip | MediaBrowser.Api/Playback/Progressive/VideoService.cs:205 | parsing the decimal rendering of an integer gives the integer back |
| Text.DecimalInjective | MediaBrowser.Api/Playback/Progressive/VideoService.cs:212 | distinct integers render to distinct decimal strings |
| VideoService.IsCopy | MediaBrowser.Api/Playback/Progressive/VideoService.cs:135 | (also at line 193) the codec token is "copy" in any casing: exactly when its case-folded form is "copy" |
| VideoService.IsVpx | MediaBrowser.Api/Playback/Progressive/VideoService.cs:105 | the codec is "libvpx" in any casing: exactly when its case-folded form is "libvpx" |
| VideoService.HasSizeBound | MediaBrowser.Api/Playback/Progressive/VideoService.cs:153 | false exactly when the request sets none of width, height, maximum width and maximum height |
| VideoService.HasGraphicalSubs | MediaBrowser.Api/Playback/Progressive/VideoService.cs:144-146 | true exactly when there is an embedded (not external) subtitle stream whose codec contains "pgs" or "dvd" in any casing |
| VideoService.VideoArguments | MediaBrowser.Api/Playback/Progressive/VideoService.cs:130-173 | covers the copy codec in any casing: exactly `-vcodec <codec>`, plus ` -bsf h264_mp4toannexb` exactly when a video stream exists and is H.264; a re-encode with bitmap subtitles ends with the burn-in parameter |
| VideoService.AudioArguments | MediaBrowser.Api/Playback/Progressive/VideoService.cs:180-218 | empty exactly when there is no audio stream; exactly `-acodec copy` when the audio codec is copy in any casing |
| VideoService.FormatFlags | MediaBrowser.Api/Playback/Progressive/VideoService.cs:97-103 | the fragmented-MP4 flags exactly when the output path ends with ".mp4" ignoring case, and empty otherwise |
| VideoService.CommandWords | MediaBrowser.Api/Playback/Progressive/VideoService.cs:109 | the template after its first slot starts with `-` and ends with the output path in quotes |
| VideoService.TrimAfterModifier | MediaBrowser.Api/Playback/Progressive/VideoService.cs:109-120 | trimming removes only the white space before the input modifier, plus the blank after a modifier that is all white space |
| VideoService.TrimmedTemplate | MediaBrowser.Api/Playback/Progressive/VideoService.cs:109-120 | the trimmed template is the trimmed modifier, a blank, then the words (no blank if the modifier vanishes) |
| VideoService.FormatCommand | MediaBrowser.Api/Playback/Progressive/VideoService.cs:109-120 | the trimmed command has no edge white space, is the leading modifier followed by the template words, and ends with the quoted output path |
| VideoService.CommandLineArguments | MediaBrowser.Api/Playback/Progressive/VideoService.cs:92-121 | the command has no edge white space and always ends with the quoted output path |
| VideoService.CommandLineLayout | MediaBrowser.Api/Playback/Progressive/VideoService.cs:95-120 | the command is the template filled with: an empty keyframe slot, the video arguments for the requested codec, the thread count asked for with "codec is libvpx ignoring case", the audio arguments and the container flags |
| ArgumentPlans.PlanVideo | MediaBrowser.Api/Playback/Progressive/VideoService.cs:132-170 | pass-through exactly for copy; Annex-B exactly for an H.264 source; size exactly without bitmap subtitles and with a size bound; subtitle exactly with bitmap subtitles, so never both; quality exactly when the quality parameter is non-empty; each part is the helper's result |
| ArgumentPlans.VideoArgumentsFollowPlan | MediaBrowser.Api/Playback/Progressive/VideoService.cs:130-173 | the video arguments are the plan's parts in order: codec, keyframes, size, trimmed quality after a blank, subtitle |
| ArgumentPlans.ReencodeRenderPrefix | MediaBrowser.Api/Playback/Progressive/VideoService.cs:140-142 | every rendered re-encode plan starts with the codec flag and the keyframe argument |
| ArgumentPlans.VideoReencodePrefix | MediaBrowser.Api/Playback/Progressive/VideoService.cs:132-142 | when the codec is not copy, the video arguments start with `-vcodec <codec>` and the forced-keyframe expression |
| ArgumentPlans.SizeHelperOnlyWithBound | MediaBrowser.Api/Playback/Progressive/VideoService.cs:151-157 | with a bitmap subtitle or without a size bound, the video arguments do not depend on the size helper or on the subtitle-conversion flag |
| ArgumentPlans.PlanAudio | MediaBrowser.Api/Playback/Progressive/VideoService.cs:183-215 | no audio exactly without an audio stream; copy exactly with a stream and the copy codec; otherwise the codec, channels, bitrate and filter are the helpers' results |
| ArgumentPlans.AudioArgumentsFollowPlan | MediaBrowser.Api/Playback/Progressive/VideoService.cs:180-218 | the audio arguments are the plan's parts in order: codec, ` -ac` channels, ` -ab` bitrate, blank and filter |
| ArgumentPlans.AudioRenderShape | MediaBrowser.Api/Playback/Progressive/VideoService.cs:198-215 | every rendered audio re-encode starts with the codec flag and ends with a blank and the filter |
| ArgumentPlans.AudioEncodeShape | MediaBrowser.Api/Playback/Progressive/VideoService.cs:198-217 | with an audio stream and a codec other than copy, the audio arguments start with `-acodec <codec>` and end with the audio filter parameter |

## Left out

- The service's routes, request DTOs, dependency wiring and its `Get`/`Head` handlers (VideoService.cs:20-83). They are HTTP plumbing and build no arguments.
- The bodies of the base-class helpers (codec choice, H.264 detection, size, quality, subtitle, channel, bitrate, filter, thread, input and map parameters). The base class is not part of this model. Each helper is a function supplied by the caller, so every property holds for any helpers.
- A helper returning `null` is modelled as returning the empty string. C# concatenation and `IsNullOrEmpty` treat the two alike.
- A `null` request or a `null` codec string (a `NullReferenceException` in the source) is not modelled. The model's strings are never null.
- Text.EqualsIgnoreCase: folds ASCII letters only. It does not model the ordinal upper-casing of other Unicode letters.
- Text.GetExtension: does not model directory separators, volume separators, a trailing dot or the exception for invalid path characters. The extension is the suffix from the last dot.
- Text.Decimal: renders integers as plain decimal with a leading `-`. Culture-specific negative signs from the current culture are not modelled.
- The thread count is shown in decimal through the same rendering. The unbounded `int` does not model 32-bit overflow, because the values come from helpers outside the model.
- `MediaBrowser.Api/VideosService.cs` and `MediaBrowser.Api/UserLibrary/GameGenresService.cs` are not part of this model.
- Idempotence: the builders are functions of their inputs, so two calls on the same state give the same string.
