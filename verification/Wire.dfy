/** The run protocol's vocabulary and the JSON codec both ends share. */
module Wire {
  import opened Text
  import opened Framing

  datatype EventKind = AssistantText | ToolUse | ToolResult | ErrorEvent
  datatype StreamEvent = StreamEvent(kind: EventKind, text: string, isError: bool)
  datatype RunResult = RunResult(ok: bool, reply: string, error: string, reason: string)

  // One NDJSON line: {t:"event", event} or {t:"result", result}.
  datatype Frame = EventFrame(event: StreamEvent) | ResultFrame(result: RunResult)

  // What the client makes of a trimmed line: not JSON, the value `null`
  // (whose property access throws), some other value, or a frame.
  datatype Parsed = Malformed | NullValue | OtherValue | Framed(frame: Frame)

  // The codec, and which events the caller's callback takes without throwing.
  datatype Codec = Codec(render: Frame -> string, parse: string -> Parsed, accepts: StreamEvent -> bool)

  // What JSON gives: a frame is one non-blank trimmed line, parsing inverts
  // printing, and a line cut short is not JSON; and a callback that never throws.
  ghost predicate Lossless(codec: Codec) {
    && (forall f :: Free(codec.render(f), NL))
    && (forall f :: codec.render(f) != "" && Trim(codec.render(f)) == codec.render(f))
    && (forall f :: codec.parse(codec.render(f)) == Framed(f))
    && (forall e :: codec.accepts(e))
    && (forall f, k | 0 <= k < |codec.render(f)| :: codec.parse(Trim(codec.render(f)[..k])) == Malformed)
  }

  function Lines(codec: Codec, frames: seq<Frame>): (r: seq<string>)
    ensures |r| == |frames| && forall i | 0 <= i < |r| :: r[i] == codec.render(frames[i])
  {
    if frames == [] then [] else [codec.render(frames[0])] + Lines(codec, frames[1..])
  }

  // The bytes on the connection after the given frames were written to it.
  function Stream(codec: Codec, frames: seq<Frame>): string {
    Terminated(Lines(codec, frames), NL)
  }

  function EventFrames(events: seq<StreamEvent>): (r: seq<Frame>)
    ensures |r| == |events| && forall i | 0 <= i < |r| :: r[i] == EventFrame(events[i])
  {
    if events == [] then [] else [EventFrame(events[0])] + EventFrames(events[1..])
  }
}
