/**
 The read-only input of the argument builder: the `StreamState` fields it
 reads, and the helpers of the progressive-streaming base class that it calls.
 */
module StreamModel {

  datatype Option<+T> = None | Some(value: T)

  /** A probed media stream of the source item: the codec token (compared
      case-insensitively) and whether it lives in a file of its own. */
  datatype MediaStream = MediaStream(codec: string, isExternal: bool)

  /** The client's request. In the service the request is always a video
      request, so `state.Request` and `state.VideoRequest` are one object;
      the builder reads only the four size bounds, the other fields are read
      by the base-class helpers. */
  datatype StreamRequest = StreamRequest(
    videoCodec: Option<string>,
    audioCodec: Option<string>,
    maxAudioChannels: Option<int>,
    audioBitRate: Option<int>,
    width: Option<int>,
    height: Option<int>,
    maxWidth: Option<int>,
    maxHeight: Option<int>)

  /** The negotiated state of one streaming request. Absent streams are `None`
      (a `null` in the source). */
  datatype StreamState = StreamState(
    request: StreamRequest,
    videoStream: Option<MediaStream>,
    audioStream: Option<MediaStream>,
    subtitleStream: Option<MediaStream>)

  /** The helpers of the base class `BaseProgressiveStreamingService` that the
      builder calls. Their bodies are not part of this model, so each is a
      function supplied by the caller: the builder promises only how it
      combines their results. A helper returning `null` is modelled as
      returning the empty string, which C# concatenation treats alike. */
  datatype BaseService = BaseService(
    getVideoCodec: StreamRequest -> string,
    getAudioCodec: StreamRequest -> string,
    isH264: MediaStream -> bool,
    getOutputSizeParam: (StreamState, string, bool) -> string,
    getVideoQualityParam: (StreamState, string, bool) -> string,
    getInternalGraphicalSubtitleParam: (StreamState, string) -> string,
    getNumAudioChannelsParam: (StreamRequest, MediaStream) -> Option<int>,
    getAudioBitrateParam: StreamState -> Option<int>,
    getAudioFilterParam: (StreamState, bool) -> string,
    getNumberOfThreads: (StreamState, bool) -> int,
    getInputModifier: StreamState -> string,
    getInputArgument: StreamState -> string,
    getSlowSeekCommandLineParameter: StreamRequest -> string,
    getMapArgs: StreamState -> string)
}
