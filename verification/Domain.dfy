/** Configuration entities shared by the manager, the coordinator and the publisher. */
module Domain {

  datatype Option<+T> = None | Some(value: T)

  /** Network knobs of one ingest source. */
  datatype InputNet = InputNet(timeoutSec: int, insecureTls: bool)

  /** One ingest source; a lower priority value is preferred. */
  datatype Input = Input(
    url: string,
    priority: int,
    headers: map<string, string>,
    params: map<string, string>,
    program: int,
    pids: seq<int>,
    net: InputNet)

  /** A rung of the encode ladder. The encoder knobs that never influence the
      buffer layout are kept as one opaque value, compared as a whole. */
  datatype VideoProfile = VideoProfile(width: int, height: int, bitrate: int, knobs: string)

  datatype VideoTranscode = VideoTranscode(copy: bool, interlace: string, profiles: seq<VideoProfile>)

  datatype AudioTranscode = AudioTranscode(copy: bool, knobs: string)

  datatype Transcoder = Transcoder(
    video: VideoTranscode,
    audio: AudioTranscode,
    decoder: string,
    globals: string)

  /** A stream configuration. Protocols, push targets, policy and DVR are only
      ever compared, so they are opaque values. */
  datatype Stream = Stream(
    code: string,
    disabled: bool,
    inputs: seq<Input>,
    transcoder: Option<Transcoder>,
    watermark: Option<string>,
    protocols: string,
    push: string,
    playbackPolicy: string,
    dvr: string)
}
