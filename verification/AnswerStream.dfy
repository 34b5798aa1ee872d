/** The streaming answer classifier (app/engine/answer_stream.py): a transducer fed with chunks
    of model output that shows the user the final answer and nothing else. The functions are the
    transducer on values; the class is the code, proved equal to them. */
module AnswerStream {
  import opened Wrappers
  import opened Text

  const THINK := "<think>"
  const THINK_END := "</think>"
  const ANSWER := "<answer>"
  const ANSWER_END := "</answer>"
  const TOOL_CALL := "<tool_call>"
  const TAIL_GUARD: nat := 12

  // ---------------------------------------------------------------- the transducer on values

  datatype Mode = Hold | Suppressed | Streaming

  datatype State = State(mode: Mode, held: string, tail: string)

  datatype Class = Undecided | ToolCall | Answer(body: string)

  const INITIAL := State(Hold, "", "")

  /** The buffer without its completed think blocks; None while a block is still open. */
  function DropThink(buf: string): (r: Option<string>)
    decreases |buf|
  {
    var i := Find(buf, THINK, 0);
    if i == -1 then Some(buf)
    else
      var j := Find(buf, THINK_END, i);
      if j == -1 then None else DropThink(buf[..i] + buf[j + |THINK_END|..])
  }

  /** A proper prefix of a tag the classifier waits for. */
  predicate CouldBeTag(s: string) {
    s < TOOL_CALL || s < THINK || s < ANSWER
  }

  /** Text after the opening answer tag, if there is one. */
  function Body(s: string): string {
    if StartsWith(s, ANSWER) then s[|ANSWER|..] else s
  }

  function Classify(buf: string): Class {
    match DropThink(buf)
    case None => Undecided
    case Some(b) =>
      var s := LStrip(b);
      if s == "" || CouldBeTag(s) then Undecided
      else if StartsWith(s, TOOL_CALL) then ToolCall
      else Answer(Body(s))
  }

  /** What is shown now, and the at most TAIL_GUARD characters kept back. */
  function Emitted(tail: string, chunk: string): (r: (string, string))
    ensures r.0 + r.1 == tail + chunk
    ensures |r.1| == if |tail + chunk| <= TAIL_GUARD then |tail + chunk| else TAIL_GUARD
  {
    var c := tail + chunk;
    if |c| <= TAIL_GUARD then ("", c) else (c[..|c| - TAIL_GUARD], c[|c| - TAIL_GUARD..])
  }

  function Reclassified(s: State): (State, string) {
    match Classify(s.held)
    case Undecided => (s, "")
    case ToolCall => (s.(mode := Suppressed), "")
    case Answer(body) => var e := Emitted(s.tail, body); (State(Streaming, "", e.1), e.0)
  }

  function Fed(s: State, chunk: string): (State, string) {
    match s.mode
    case Suppressed => (s, "")
    case Streaming => var e := Emitted(s.tail, chunk); (s.(tail := e.1), e.0)
    case Hold => Reclassified(s.(held := s.held + chunk))
  }

  /** The end of the stream without its closing answer tag and without trailing whitespace. */
  function Trim(text: string): (r: string)
    ensures r <= text
  {
    var s := RStrip(text);
    if EndsWith(s, ANSWER_END) then RStrip(s[..|s| - |ANSWER_END|]) else s
  }

  function Flushed(s: State): (State, string) {
    match s.mode
    case Suppressed => (s, "")
    case Streaming => (s.(tail := ""), Trim(s.tail))
    case Hold => var c := Reclassified(s); (c.0.(tail := ""), Trim(c.1 + c.0.tail))
  }

  function FeedAll(s: State, chunks: seq<string>): (State, string)
    decreases chunks
  {
    if chunks == [] then (s, "")
    else
      var a := Fed(s, chunks[0]);
      var b := FeedAll(a.0, chunks[1..]);
      (b.0, a.1 + b.1)
  }

  /** Everything a listener is shown for a stream that arrives in these chunks. */
  function Shown(chunks: seq<string>): string {
    var r := FeedAll(INITIAL, chunks);
    r.1 + Flushed(r.0).1
  }

  function Concat(chunks: seq<string>): string {
    if chunks == [] then "" else chunks[0] + Concat(chunks[1..])
  }

  // ---------------------------------------------------------------- the class

  class AnswerStreamState {
    var state: Mode
    var holdBuf: string
    var tail: string

    ghost function Value(): State
      reads this
    {
      State(state, holdBuf, tail)
    }

    constructor ()
      ensures Value() == INITIAL
    {
      state, holdBuf, tail := Hold, "", "";
    }

    method Feed(chunk: string) returns (out: string)
      modifies this
      ensures (Value(), out) == Fed(old(Value()), chunk)
    {
      if state == Suppressed { return ""; }
      if state == Streaming {
        out := Emit(chunk);
        return;
      }
      holdBuf := holdBuf + chunk;
      out := Classify();
    }

    /** The shrinking loop of `_classify`: every completed think block goes; None while one is open. */
    method StripThink(text: string) returns (rest: Option<string>)
      ensures rest == DropThink(text)
    {
      var buf := text;
      var thinkStart := Find(buf, THINK, 0);
      while thinkStart != -1
        invariant thinkStart == Find(buf, THINK, 0)
        invariant DropThink(buf) == DropThink(text)
        decreases |buf|
      {
        var thinkEnd := Find(buf, THINK_END, thinkStart);
        if thinkEnd == -1 { return None; }
        buf := buf[..thinkStart] + buf[thinkEnd + |THINK_END|..];
        thinkStart := Find(buf, THINK, 0);
      }
      rest := Some(buf);
    }

    method Classify() returns (out: string)
      modifies this
      ensures (Value(), out) == Reclassified(old(Value()))
    {
      var buf := StripThink(holdBuf);
      if buf.None? { return ""; }
      var stripped := LStrip(buf.value);
      if stripped == "" || CouldBeTag(stripped) { return ""; }
      if StartsWith(stripped, TOOL_CALL) {
        state := Suppressed;
        return "";
      }
      state := Streaming;
      if StartsWith(stripped, ANSWER) {
        stripped := stripped[|ANSWER|..];
      }
      holdBuf := "";
      out := Emit(stripped);
    }

    method Emit(chunk: string) returns (out: string)
      modifies this`tail
      ensures (out, tail) == Emitted(old(tail), chunk)
    {
      var combined := tail + chunk;
      if |combined| <= TAIL_GUARD {
        tail := combined;
        return "";
      }
      out := combined[..|combined| - TAIL_GUARD];
      tail := combined[|combined| - TAIL_GUARD..];
    }

    method Flush() returns (out: string)
      modifies this
      ensures (Value(), out) == Flushed(old(Value()))
    {
      var result;
      if state == Hold {
        var leftover := Classify();
        result := leftover + tail;
        tail := "";
      } else if state == Suppressed {
        return "";
      } else {
        result := tail;
        tail := "";
      }
      out := Trim(result);
    }
  }
}
